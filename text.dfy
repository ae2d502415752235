/** String and sequence helpers standing for the JavaScript built-ins the
    microk8s plugin relies on: `String.prototype.includes`,
    `String.prototype.split("\n")`, `Array.prototype.filter`'s order
    preservation and `path.parse(p).base`. */
module Text {

  /** `p` is a prefix of `s`. */
  predicate IsPrefix<T(==)>(p: seq<T>, s: seq<T>)
  {
    |p| <= |s| && s[..|p|] == p
  }

  /** `p` is a suffix of `s`. */
  predicate IsSuffix<T(==)>(p: seq<T>, s: seq<T>)
  {
    |p| <= |s| && s[|s| - |p|..] == p
  }

  /** `t` occurs in `s` starting at position `i`. */
  predicate OccursAt(s: string, t: string, i: int)
  {
    0 <= i <= |s| - |t| && s[i..i + |t|] == t
  }

  /** `s.includes(t)`: `t` occurs in `s` at some position. */
  predicate Contains(s: string, t: string)
  {
    exists i | 0 <= i <= |s| - |t| :: OccursAt(s, t, i)
  }

  /** Whatever surrounds it, a string contains its own middle part. */
  lemma ContainsInfix(a: string, b: string, c: string)
    ensures Contains(a + b + c, b)
  {
    var s := a + b + c;
    assert s[|a|..|a| + |b|] == b;
    assert OccursAt(s, b, |a|);
  }

  /** `xs` is obtained from `ys` by deleting elements, keeping the order of the rest. */
  predicate IsSubsequence<T(==)>(xs: seq<T>, ys: seq<T>)
    decreases |ys|
  {
    |xs| == 0 ||
    (|ys| > 0 &&
     ((xs[0] == ys[0] && IsSubsequence(xs[1..], ys[1..])) || IsSubsequence(xs, ys[1..])))
  }

  /** `s.split("\n")`: the pieces between newlines, with an empty piece for
      an empty input, a leading newline or a trailing newline. */
  function SplitLines(s: string): (lines: seq<string>)
    ensures |lines| >= 1
    ensures forall k :: 0 <= k < |lines| ==> '\n' !in lines[k]
    decreases |s|
  {
    if |s| == 0 then [""]
    else
      var rest := SplitLines(s[1..]);
      if s[0] == '\n' then [""] + rest
      else [[s[0]] + rest[0]] + rest[1..]
  }

  /** `lines.join("\n")`, for at least one line: the reference for SplitLines. */
  function JoinLines(lines: seq<string>): string
    requires |lines| >= 1
  {
    if |lines| == 1 then lines[0] else lines[0] + "\n" + JoinLines(lines[1..])
  }

  /** Splitting and re-joining gives back the text. */
  lemma {:induction false} JoinSplitLines(s: string)
    ensures JoinLines(SplitLines(s)) == s
    decreases |s|
  {
    if |s| > 0 {
      var rest := SplitLines(s[1..]);
      JoinSplitLines(s[1..]);
      if s[0] == '\n' {
        assert SplitLines(s) == [""] + rest;
        assert s == "\n" + s[1..];
      } else if |rest| == 1 {
        assert SplitLines(s) == [[s[0]] + rest[0]];
        assert s == [s[0]] + s[1..];
      } else {
        var lines := SplitLines(s);
        assert lines == [[s[0]] + rest[0]] + rest[1..];
        assert lines[1..] == rest[1..];
        assert JoinLines(rest) == rest[0] + "\n" + JoinLines(rest[1..]);
        assert s == [s[0]] + s[1..];
      }
    }
  }

  /** A newline-free line in front of any text extends that text's first piece. */
  lemma {:induction false} SplitLinesAfterLine(line: string, t: string)
    requires '\n' !in line
    ensures SplitLines(line + t) == [line + SplitLines(t)[0]] + SplitLines(t)[1..]
    decreases |line|
  {
    if |line| > 0 {
      SplitLinesAfterLine(line[1..], t);
      assert (line + t)[1..] == line[1..] + t;
      assert (line + t)[0] == line[0];
      assert [line[0]] + (line[1..] + SplitLines(t)[0]) == line + SplitLines(t)[0];
    } else {
      var rest := SplitLines(t);
      assert line + t == t;
      assert line + rest[0] == rest[0];
      assert rest == [rest[0]] + rest[1..];
    }
  }

  /** Joining newline-free lines and splitting again gives back the lines. */
  lemma {:induction false} SplitJoinLines(lines: seq<string>)
    requires |lines| >= 1
    requires forall k :: 0 <= k < |lines| ==> '\n' !in lines[k]
    ensures SplitLines(JoinLines(lines)) == lines
    decreases |lines|
  {
    if |lines| == 1 {
      SplitLinesAfterLine(lines[0], "");
      assert lines[0] + "" == lines[0];
    } else {
      var tail := "\n" + JoinLines(lines[1..]);
      SplitJoinLines(lines[1..]);
      assert tail[0] == '\n' && tail[1..] == JoinLines(lines[1..]);
      assert SplitLines(tail) == [""] + lines[1..];
      assert JoinLines(lines) == lines[0] + tail;
      SplitLinesAfterLine(lines[0], tail);
      assert lines[0] + "" == lines[0];
    }
  }

  /** The path with every trailing '/' removed. */
  function TrimTrailingSlashes(path: string): string
    decreases |path|
  {
    if |path| > 0 && path[|path| - 1] == '/' then TrimTrailingSlashes(path[..|path| - 1]) else path
  }

  /** Trimming removes slashes from the end and nothing else, and leaves no trailing slash. */
  lemma {:induction false} TrimTrailingSlashesRemovesOnlySlashes(path: string)
    ensures var trimmed := TrimTrailingSlashes(path);
            IsPrefix(trimmed, path) &&
            (|trimmed| == 0 || trimmed[|trimmed| - 1] != '/') &&
            forall k :: |trimmed| <= k < |path| ==> path[k] == '/'
    decreases |path|
  {
    if |path| > 0 && path[|path| - 1] == '/' {
      TrimTrailingSlashesRemovesOnlySlashes(path[..|path| - 1]);
    }
  }

  /** The part of the path after its last '/'. */
  function AfterLastSlash(path: string): string
    decreases |path|
  {
    if |path| == 0 || path[|path| - 1] == '/' then []
    else AfterLastSlash(path[..|path| - 1]) + [path[|path| - 1]]
  }

  /** The part after the last slash is the longest slash-free suffix. */
  lemma {:induction false} AfterLastSlashIsLongestSlashFreeSuffix(path: string)
    ensures var name := AfterLastSlash(path);
            '/' !in name && IsSuffix(name, path) &&
            (|name| == |path| || path[|path| - |name| - 1] == '/')
    decreases |path|
  {
    if |path| > 0 && path[|path| - 1] != '/' {
      var init := path[..|path| - 1];
      AfterLastSlashIsLongestSlashFreeSuffix(init);
      var name := AfterLastSlash(init);
      assert path[|path| - |name| - 1..] == init[|init| - |name|..] + [path[|path| - 1]];
    }
  }

  /** `path.parse(path).base` on POSIX paths: the last component, ignoring trailing slashes. */
  function Base(path: string): (name: string)
    ensures '/' !in name && |name| <= |path|
  {
    TrimTrailingSlashesRemovesOnlySlashes(path);
    AfterLastSlashIsLongestSlashFreeSuffix(TrimTrailingSlashes(path));
    AfterLastSlash(TrimTrailingSlashes(path))
  }

  /** The base name holds no '/'; for a path without a trailing '/' it is
      the path's longest slash-free suffix. */
  lemma BaseIsLastComponent(path: string)
    ensures '/' !in Base(path)
    ensures |path| > 0 && path[|path| - 1] != '/' ==>
              IsSuffix(Base(path), path) &&
              (|Base(path)| == |path| || path[|path| - |Base(path)| - 1] == '/')
  {
    TrimTrailingSlashesRemovesOnlySlashes(path);
    AfterLastSlashIsLongestSlashFreeSuffix(TrimTrailingSlashes(path));
  }
}
