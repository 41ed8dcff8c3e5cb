/** String operations shared by several components: strip, split, join and the order of texts. */
module Strings {
  /** The characters that strip removes. */
  predicate Space(c: char) {
    var n := c as int;
    || 9 <= n <= 13 || 28 <= n <= 32 || n == 0x85 || n == 0xA0 || n == 0x1680 || 0x2000 <= n <= 0x200A || n == 0x2028 || n == 0x2029
    || n == 0x202F || n == 0x205F || n == 0x3000
  }

  function LeftTrim(s: string): (r: string)
    ensures |r| <= |s| && r == s[|s| - |r|..] && (r != "" ==> !Space(r[0]))
    ensures s == "" || !Space(s[0]) ==> r == s
  {
    if s != "" && Space(s[0]) then LeftTrim(s[1..]) else s
  }

  function RightTrim(s: string): (r: string)
    ensures |r| <= |s| && r == s[..|r|] && (r != "" ==> !Space(r[|r| - 1]))
    ensures s == "" || !Space(s[|s| - 1]) ==> r == s
  {
    if s != "" && Space(s[|s| - 1]) then RightTrim(s[..|s| - 1]) else s
  }

  function Trim(s: string): string { RightTrim(LeftTrim(s)) }

  /** The text without its spaces. */
  function Ink(s: string): string {
    if s == "" then "" else (if Space(s[0]) then "" else [s[0]]) + Ink(s[1..])
  }

  lemma {:induction false} InkAppend(a: string, b: string)
    ensures Ink(a + b) == Ink(a) + Ink(b)
  {
    if a == "" {
      assert a + b == b;
    } else {
      assert (a + b)[1..] == a[1..] + b;
      InkAppend(a[1..], b);
    }
  }

  lemma {:induction false} InkOfSpaces(s: string)
    requires forall c | c in s :: Space(c)
    ensures Ink(s) == ""
  {
    if s != "" {
      InkOfSpaces(s[1..]);
    }
  }

  lemma {:induction false} InkLeftTrim(s: string)
    ensures Ink(LeftTrim(s)) == Ink(s)
  {
    if s != "" && Space(s[0]) {
      InkLeftTrim(s[1..]);
    }
  }

  lemma {:induction false} InkRightTrim(s: string)
    ensures Ink(RightTrim(s)) == Ink(s)
  {
    if s != "" && Space(s[|s| - 1]) {
      InkRightTrim(s[..|s| - 1]);
      assert s == s[..|s| - 1] + [s[|s| - 1]];
      InkAppend(s[..|s| - 1], [s[|s| - 1]]);
      InkOfSpaces([s[|s| - 1]]);
    }
  }

  lemma InkTrim(s: string)
    ensures Ink(Trim(s)) == Ink(s)
  {
    InkLeftTrim(s);
    InkRightTrim(LeftTrim(s));
  }

  /** Splitting at every separator, leftmost first. */
  function Split(s: string, sep: string): (parts: seq<string>)
    requires sep != ""
    ensures parts != []
  {
    if |s| < |sep| then [s]
    else if sep <= s then [""] + Split(s[|sep|..], sep)
    else
      var rest := Split(s[1..], sep);
      [[s[0]] + rest[0]] + rest[1..]
  }

  function Join(parts: seq<string>, sep: string): string {
    if parts == [] then "" else if |parts| == 1 then parts[0] else parts[0] + sep + Join(parts[1..], sep)
  }

  /** The inks of several texts, one after the other. */
  function InkOf(parts: seq<string>): string {
    if parts == [] then "" else Ink(parts[0]) + InkOf(parts[1..])
  }

  lemma {:induction false} InkOfAppend(a: seq<string>, b: seq<string>)
    ensures InkOf(a + b) == InkOf(a) + InkOf(b)
  {
    hide Ink;
    if a == [] {
      assert a + b == b;
    } else {
      assert (a + b)[1..] == a[1..] + b;
      InkOfAppend(a[1..], b);
    }
  }

  /** Joining what was split gives the text back. */
  lemma {:induction false} JoinSplit(s: string, sep: string)
    requires sep != ""
    ensures Join(Split(s, sep), sep) == s
  {
    if |s| >= |sep| {
      if sep <= s {
        JoinSplit(s[|sep|..], sep);
        assert ([""] + Split(s[|sep|..], sep))[1..] == Split(s[|sep|..], sep);
        assert s == "" + sep + s[|sep|..];
      } else {
        JoinSplit(s[1..], sep);
        var rest := Split(s[1..], sep);
        var parts := [[s[0]] + rest[0]] + rest[1..];
        assert parts[1..] == rest[1..];
        assert s == [s[0]] + s[1..];
        if |rest| > 1 {
          assert [s[0]] + (rest[0] + sep + Join(rest[1..], sep)) == ([s[0]] + rest[0]) + sep + Join(rest[1..], sep);
        }
      }
    }
  }

  predicate Contains(s: string, sep: string) { exists k | 0 <= k <= |s| :: sep <= s[k..] }

  /** No part of a split text holds the separator, so with `JoinSplit` it is cut at every separator. */
  lemma {:induction false} SplitIsComplete(s: string, sep: string)
    requires sep != ""
    ensures Split(s, sep)[0] <= s && forall k | 0 <= k < |Split(s, sep)| :: !Contains(Split(s, sep)[k], sep)
  {
    if |s| < |sep| {
    } else if sep <= s {
      SplitIsComplete(s[|sep|..], sep);
    } else {
      SplitIsComplete(s[1..], sep);
      var rest := Split(s[1..], sep);
      var first := [s[0]] + rest[0];
      assert first <= s by { assert s == [s[0]] + s[1..]; }
      forall k | 0 <= k <= |first| ensures !(sep <= first[k..]) {
        if k > 0 {
          assert first[k..] == rest[0][k - 1..];
        }
      }
    }
  }

  lemma {:induction false} InkJoin(parts: seq<string>, sep: string)
    requires forall c | c in sep :: Space(c)
    ensures Ink(Join(parts, sep)) == InkOf(parts)
  {
    if |parts| == 1 {
      assert parts[1..] == [] && InkOf([]) == "";
    } else if |parts| > 1 {
      InkJoin(parts[1..], sep);
      InkOfSpaces(sep);
      InkAppend(parts[0] + sep, Join(parts[1..], sep));
      InkAppend(parts[0], sep);
    }
  }

  /** Splitting at spaces loses no ink. */
  lemma InkSplit(s: string, sep: string)
    requires sep != "" && forall c | c in sep :: Space(c)
    ensures InkOf(Split(s, sep)) == Ink(s)
  {
    JoinSplit(s, sep);
    InkJoin(Split(s, sep), sep);
  }

  /** The order of texts, by character. */
  predicate Below(a: string, b: string) {
    b != "" && (a == "" || a[0] < b[0] || (a[0] == b[0] && Below(a[1..], b[1..])))
  }

  /** Below at the first character where the two differ, or as a proper beginning. */
  lemma {:induction false} BelowIff(a: string, b: string)
    ensures Below(a, b) <==> exists k | 0 <= k <= |a| && k < |b| :: a[..k] == b[..k] && (k == |a| || a[k] < b[k])
  {
    if a == "" || b == "" || a[0] != b[0] {
      if b != "" && (a == "" || a[0] < b[0]) {
        assert a[..0] == b[..0];
      }
    } else {
      BelowIff(a[1..], b[1..]);
      if k :| 0 <= k <= |a[1..]| && k < |b[1..]| && a[1..][..k] == b[1..][..k] && (k == |a[1..]| || a[1..][k] < b[1..][k]) {
        assert a[..k + 1] == [a[0]] + a[1..][..k] && b[..k + 1] == [b[0]] + b[1..][..k];
      }
      if k :| 0 <= k <= |a| && k < |b| && a[..k] == b[..k] && (k == |a| || a[k] < b[k]) {
        assert a[1..][..k - 1] == a[..k][1..] && b[1..][..k - 1] == b[..k][1..];
      }
    }
  }

  lemma {:induction false} BelowTotal(a: string, b: string)
    ensures Below(a, b) || Below(b, a) || a == b
    ensures !(Below(a, b) && Below(b, a)) && !Below(a, a)
  {
    if a != "" {
      BelowTotal(a[1..], a[1..]);
      if b != "" {
        BelowTotal(a[1..], b[1..]);
        if a[0] == b[0] && a[1..] == b[1..] {
          assert a == [a[0]] + a[1..] && b == [b[0]] + b[1..];
        }
      }
    }
  }

  lemma {:induction false} BelowTransitive(a: string, b: string, c: string)
    requires Below(a, b) && Below(b, c)
    ensures Below(a, c)
  {
    if a != "" && a[0] == b[0] && b[0] == c[0] {
      BelowTransitive(a[1..], b[1..], c[1..]);
    }
  }
}
