/** String operations the session relies on: JavaScript's
    `String.prototype.split("\n")`, its inverse join, and the
    `replace(/^\n/, "")` that drops one leading newline. */
module Text {

  /** Number of newline characters in `s`. */
  function NewlineCount(s: string): nat
  {
    if |s| == 0 then 0
    else (if s[0] == '\n' then 1 else 0) + NewlineCount(s[1..])
  }

  /** A line is a string without a newline in it. */
  ghost predicate IsLine(s: string)
  {
    '\n' !in s
  }

  ghost predicate AllLines(xs: seq<string>)
  {
    forall i :: 0 <= i < |xs| ==> IsLine(xs[i])
  }

  /** `s.split("\n")`: the newline-separated segments of `s`, in order.
      Like JavaScript, the empty string splits into one empty segment and a
      trailing newline yields a trailing empty segment. */
  function Split(s: string): (r: seq<string>)
    ensures |r| >= 1
    ensures |r| == NewlineCount(s) + 1
    ensures AllLines(r)
  {
    if |s| == 0 then [""]
    else
      var rest := Split(s[1..]);
      if s[0] == '\n' then [""] + rest
      else [[s[0]] + rest[0]] + rest[1..]
  }

  /** `xs.join("\n")`. */
  function Join(xs: seq<string>): string
  {
    if |xs| == 0 then ""
    else if |xs| == 1 then xs[0]
    else xs[0] + "\n" + Join(xs[1..])
  }

  /** `s.replace(/^\n/, "")`: the pattern has no multiline flag, so only a
      newline at index 0 is removed, and only one. */
  function StripLeadingNewline(s: string): (r: string)
    ensures |r| <= |s| <= |r| + 1
    ensures r == s[|s| - |r|..]
    ensures |r| < |s| <==> (|s| > 0 && s[0] == '\n')
  {
    if |s| > 0 && s[0] == '\n' then s[1..] else s
  }

  /** Joining the segments gives back the split string. */
  lemma {:induction false} JoinSplit(s: string)
    ensures Join(Split(s)) == s
  {
    if |s| == 0 {
    } else {
      var rest := Split(s[1..]);
      JoinSplit(s[1..]);
      if s[0] == '\n' {
        assert Split(s) == [""] + rest;
        if |rest| == 1 {
          assert Join(Split(s)) == "" + "\n" + rest[0];
        } else {
          assert Split(s)[1..] == rest;
        }
        assert s == [s[0]] + s[1..];
      } else {
        var head := [s[0]] + rest[0];
        assert Split(s) == [head] + rest[1..];
        if |rest| == 1 {
          assert Join(Split(s)) == head;
        } else {
          assert Split(s)[1..] == rest[1..];
          assert Join(rest) == rest[0] + "\n" + Join(rest[1..]);
          assert Join(Split(s)) == head + "\n" + Join(rest[1..]);
        }
        assert s == [s[0]] + s[1..];
      }
    }
  }

  /** A string without a newline is a single segment. */
  lemma {:induction false} SplitLine(s: string)
    requires IsLine(s)
    ensures Split(s) == [s]
  {
    if |s| > 0 {
      assert s[0] != '\n';
      assert IsLine(s[1..]) by {
        forall i | 0 <= i < |s[1..]| ensures s[1..][i] != '\n' {
          assert s[1..][i] == s[i + 1];
        }
      }
      SplitLine(s[1..]);
      assert s == [s[0]] + s[1..];
    }
  }

  /** Splitting at a newline after a newline-free head peels off that head. */
  lemma {:induction false} SplitCons(a: string, b: string)
    requires IsLine(a)
    ensures Split(a + "\n" + b) == [a] + Split(b)
    decreases |a|
  {
    var s := a + "\n" + b;
    if |a| == 0 {
      assert s == "\n" + b;
      assert s[1..] == b;
    } else {
      assert s[0] == a[0];
      assert s[1..] == a[1..] + "\n" + b;
      assert IsLine(a[1..]) by {
        forall i | 0 <= i < |a[1..]| ensures a[1..][i] != '\n' {
          assert a[1..][i] == a[i + 1];
        }
      }
      SplitCons(a[1..], b);
      assert a == [a[0]] + a[1..];
    }
  }

  /** Splitting a join of newline-free segments gives back the segments. */
  lemma {:induction false} SplitJoin(xs: seq<string>)
    requires |xs| >= 1
    requires AllLines(xs)
    ensures Split(Join(xs)) == xs
  {
    if |xs| == 1 {
      SplitLine(xs[0]);
    } else {
      assert IsLine(xs[0]);
      SplitJoin(xs[1..]);
      SplitCons(xs[0], Join(xs[1..]));
      assert xs == [xs[0]] + xs[1..];
    }
  }

  /** A prefix without a newline only lengthens the first segment. */
  lemma {:induction false} SplitPrefix(p: string, s: string)
    requires IsLine(p)
    ensures Split(p + s) == [p + Split(s)[0]] + Split(s)[1..]
    decreases |p|
  {
    if |p| == 0 {
      assert p + s == s;
      assert p + Split(s)[0] == Split(s)[0];
      assert Split(s) == [Split(s)[0]] + Split(s)[1..];
    } else {
      var t := p + s;
      assert t[0] == p[0] && t[0] != '\n';
      assert t[1..] == p[1..] + s;
      assert IsLine(p[1..]) by {
        forall i | 0 <= i < |p[1..]| ensures p[1..][i] != '\n' {
          assert p[1..][i] == p[i + 1];
        }
      }
      SplitPrefix(p[1..], s);
      assert [p[0]] + (p[1..] + Split(s)[0]) == p + Split(s)[0];
    }
  }

  /** The strip undoes exactly one prepended newline and no more. */
  lemma StripPrependedNewline(t: string)
    ensures StripLeadingNewline("\n" + t) == t
  {
    assert ("\n" + t)[1..] == t;
  }

  /** Joining two non-empty runs of segments puts one newline between them. */
  lemma {:induction false} JoinConcat(xs: seq<string>, ys: seq<string>)
    requires |xs| >= 1 && |ys| >= 1
    ensures Join(xs + ys) == Join(xs) + "\n" + Join(ys)
  {
    if |xs| == 1 {
      assert (xs + ys)[1..] == ys;
    } else {
      JoinConcat(xs[1..], ys);
      assert (xs + ys)[1..] == xs[1..] + ys;
    }
  }

  /** Appending a line after a newline appends one segment to the split. */
  lemma {:induction false} SplitSnoc(t: string, line: string)
    requires IsLine(line)
    ensures Split(t + "\n" + line) == Split(t) + [line]
    decreases |t|
  {
    var s := t + "\n" + line;
    if |t| == 0 {
      assert s == "\n" + line;
      assert s[1..] == line;
      SplitLine(line);
    } else {
      assert s[0] == t[0];
      assert s[1..] == t[1..] + "\n" + line;
      SplitSnoc(t[1..], line);
    }
  }
}
