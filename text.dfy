/** String helpers that the note searcher takes from Python's standard library:
    `os.path.basename`, slicing `s[:n]` and `sep.join(parts)`. */
module Text {

  /** POSIX `os.path.basename`: everything after the last '/'.
      The result is the longest suffix of `p` that contains no '/'. */
  function Basename(p: string): (r: string)
    ensures '/' !in r
    ensures |r| <= |p| && p[|p| - |r|..] == r
    ensures |r| == |p| || p[|p| - |r| - 1] == '/'
  {
    if |p| == 0 || p[|p| - 1] == '/' then ""
    else
      var rest := Basename(p[..|p| - 1]);
      assert p[|p| - |rest| - 1..] == p[..|p| - 1][|p| - 1 - |rest|..] + [p[|p| - 1]];
      rest + [p[|p| - 1]]
  }

  /** The base name of a path built as `dir + "/" + name` is `name`. */
  lemma {:induction false} BasenameOfChild(dir: string, name: string)
    requires '/' !in name
    ensures Basename(dir + "/" + name) == name
  {
    if |name| == 0 {
      assert (dir + "/" + name) == dir + "/";
    } else {
      var init := name[..|name| - 1];
      assert (dir + "/" + name)[..|dir + "/" + name| - 1] == dir + "/" + init;
      assert name[|name| - 1] in name;
      BasenameOfChild(dir, init);
      assert init + [name[|name| - 1]] == name;
    }
  }

  /** Python's `s[:n]`: the first `n` characters of `s`, or all of `s` when it is shorter. */
  function Clip(s: string, n: nat): (r: string)
    ensures r <= s
    ensures |r| == if |s| <= n then |s| else n
  {
    if |s| <= n then s else s[..n]
  }

  /** Sum of the lengths of `parts`. */
  function TotalLength(parts: seq<string>): nat
  {
    if |parts| == 0 then 0 else |parts[0]| + TotalLength(parts[1..])
  }

  /** Python's `sep.join(parts)`: the parts in order, with `sep` between neighbours. */
  function Join(sep: string, parts: seq<string>): (r: string)
    ensures |parts| == 0 ==> r == ""
    ensures |parts| > 0 ==> |r| == TotalLength(parts) + (|parts| - 1) * |sep|
  {
    if |parts| == 0 then ""
    else if |parts| == 1 then parts[0]
    else
      var rest := Join(sep, parts[1..]);
      assert |rest| == TotalLength(parts[1..]) + (|parts| - 2) * |sep|;
      assert (|parts| - 2) * |sep| + |sep| == (|parts| - 1) * |sep|;
      parts[0] + sep + rest
  }

  lemma JoinOne(sep: string, part: string)
    ensures Join(sep, [part]) == part
  {
  }

  /** Joining a concatenation puts one separator between the two joined halves. */
  lemma {:induction false} JoinConcat(sep: string, a: seq<string>, b: seq<string>)
    requires |a| > 0 && |b| > 0
    ensures Join(sep, a + b) == Join(sep, a) + sep + Join(sep, b)
  {
    assert (a + b)[0] == a[0];
    if |a| == 1 {
      assert (a + b)[1..] == b;
    } else {
      assert (a + b)[1..] == a[1..] + b;
      JoinConcat(sep, a[1..], b);
    }
  }

  /** Part `i` stands in the joined string between the join of the parts before it
      and the join of the parts after it, with one separator on each side that has parts. */
  lemma JoinAt(sep: string, parts: seq<string>, i: nat)
    requires i < |parts|
    ensures Join(sep, parts) ==
      (if i == 0 then "" else Join(sep, parts[..i]) + sep)
      + parts[i]
      + (if i == |parts| - 1 then "" else sep + Join(sep, parts[i + 1..]))
  {
    var before, after := parts[..i], parts[i + 1..];
    var mid := [parts[i]] + after;
    assert parts == before + mid;
    JoinOne(sep, parts[i]);
    if after != [] {
      JoinConcat(sep, [parts[i]], after);
    } else {
      assert mid == [parts[i]];
    }
    if before != [] {
      JoinConcat(sep, before, mid);
    } else {
      assert parts == mid;
    }
  }
}
