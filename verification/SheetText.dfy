/**
 Text cells of the model workbook (model_workbook.py:585-601): text that Excel would take for a formula is written
 behind an apostrophe, and reading takes that apostrophe off again.
 */
module SheetText {
  import opened Json
  import opened Strings

  predicate Marker(c: char) { c in {'=', '+', '-', '@'} }

  predicate LooksLikeFormula(s: string) { var t := LeftTrim(s); t != "" && Marker(t[0]) }

  /** `_safe_excel_text` */
  function Safe(s: string): string { if LooksLikeFormula(s) then "'" + s else s }

  predicate Guarded(s: string) { s != "" && s[0] == '\'' && LooksLikeFormula(s[1..]) }

  /** `_read_text` of a text cell */
  function Read(s: string, limit: nat): Option<string> {
    var trimmed := Trim(s);
    var text := if Guarded(trimmed) then trimmed[1..] else trimmed;
    if text == "" || |text| > limit then None else Some(text)
  }

  predicate EndsInSpace(s: string) { s != "" && Space(s[|s| - 1]) }

  predicate StartsWithSpace(s: string) { s != "" && Space(s[0]) }

  /** The texts a cell keeps: formula-like text may start with spaces; other text may not look guarded already. */
  predicate Kept(s: string, limit: nat) {
    && s != "" && |s| <= limit && !EndsInSpace(s)
    && (LooksLikeFormula(s) || (!StartsWithSpace(s) && !Guarded(s)))
  }

  lemma {:induction false} RightTrimKeepsStart(s: string, k: nat)
    requires k < |s| && !Space(s[k])
    ensures |RightTrim(s)| > k
  {
    if Space(s[|s| - 1]) {
      RightTrimKeepsStart(s[..|s| - 1], k);
    }
  }

  lemma {:induction false} LeftTrimDrops(s: string)
    ensures forall j | 0 <= j < |s| - |LeftTrim(s)| :: Space(s[j])
  {
    if s != "" && Space(s[0]) {
      LeftTrimDrops(s[1..]);
      assert forall j | 1 <= j < |s| :: s[j] == s[1..][j - 1];
    }
  }

  lemma {:induction false} LeftTrimStops(s: string, k: nat)
    requires k < |s| && (forall j | 0 <= j < k :: Space(s[j])) && !Space(s[k])
    ensures LeftTrim(s) == s[k..]
  {
    if k > 0 {
      LeftTrimStops(s[1..], k - 1);
      assert s[1..][k - 1..] == s[k..];
    }
  }

  /** Trimming the right end does not change what a text starts with. */
  lemma LeftTrimOfPrefix(s: string, n: nat)
    requires n <= |s| && |LeftTrim(s)| > |s| - n
    ensures LeftTrim(s[..n]) == s[|s| - |LeftTrim(s)|..n]
  {
    hide Space;
    var k := |s| - |LeftTrim(s)|;
    LeftTrimDrops(s);
    assert s[k] == LeftTrim(s)[0];
    LeftTrimStops(s[..n], k);
  }

  lemma FormulaAfterTrim(s: string)
    requires LooksLikeFormula(s)
    ensures LooksLikeFormula(RightTrim(s)) && RightTrim(s) != ""
  {
    var t := LeftTrim(s);
    var k := |s| - |t|;
    assert s[k] == t[0];
    RightTrimKeepsStart(s, k);
    LeftTrimOfPrefix(s, |RightTrim(s)|);
  }

  /** Trimming behind an apostrophe. */
  lemma {:induction false} TrimBehindApostrophe(s: string)
    ensures Trim("'" + s) == "'" + RightTrim(s)
  {
    assert !Space('\'');
    if s == "" {
    } else if Space(s[|s| - 1]) {
      assert ("'" + s)[..|s|] == "'" + s[..|s| - 1];
      TrimBehindApostrophe(s[..|s| - 1]);
    }
  }

  lemma FormulaRead(s: string, limit: nat)
    requires LooksLikeFormula(s)
    ensures Read(Safe(s), limit) == if |RightTrim(s)| > limit then None else Some(RightTrim(s))
  {
    hide LooksLikeFormula, Trim, RightTrim, LeftTrim, Space;
    FormulaAfterTrim(s);
    TrimBehindApostrophe(s);
    var trimmed := "'" + RightTrim(s);
    assert trimmed[1..] == RightTrim(s);
    assert Guarded(trimmed);
  }

  lemma TrimmedIffBare(s: string)
    ensures Trim(s) == s <==> !StartsWithSpace(s) && !EndsInSpace(s)
  {
    var l := LeftTrim(s);
    if StartsWithSpace(s) {
      assert l == LeftTrim(s[1..]);
    }
  }

  lemma KeptFormula(s: string, limit: nat)
    requires LooksLikeFormula(s)
    ensures Read(Safe(s), limit) == Some(s) <==> Kept(s, limit)
  {
    FormulaRead(s, limit);
    FormulaAfterTrim(s);
    hide LooksLikeFormula, Read, Safe, RightTrim, Space;
  }

  lemma KeptPlain(s: string, limit: nat)
    requires !LooksLikeFormula(s)
    ensures Read(Safe(s), limit) == Some(s) <==> Kept(s, limit)
  {
    hide LooksLikeFormula, RightTrim, LeftTrim, Space;
    TrimmedIffBare(s);
    assert |Trim(s)| <= |s|;
    hide Trim, StartsWithSpace, EndsInSpace;
    assert Guarded(Trim(s)) ==> |Trim(s)[1..]| < |s|;
  }

  /**
   Writing and reading a text gives the same text exactly when it is kept: not empty, not too long, without trailing
   space, and, unless it looks like a formula, neither indented nor written as a guarded formula.
   */
  lemma KeptIff(s: string, limit: nat)
    ensures Read(Safe(s), limit) == Some(s) <==> Kept(s, limit)
  {
    if LooksLikeFormula(s) {
      KeptFormula(s, limit);
    } else {
      KeptPlain(s, limit);
    }
  }

  /** A text without spaces that does not start with an apostrophe is kept. */
  lemma PlainKept(s: string, limit: nat)
    requires s != "" && |s| <= limit && s[0] != '\'' && forall c | c in s :: !Space(c)
    ensures Kept(s, limit) && Read(Safe(s), limit) == Some(s)
  {
    assert s[|s| - 1] in s && s[0] in s;
    KeptIff(s, limit);
  }

  /** What has been read once is kept by every later export and import. */
  lemma ReadOnceKept(s: string, limit: nat)
    requires Read(s, limit).Some?
    ensures var r := Read(s, limit).value; Kept(r, limit) && Read(Safe(r), limit) == Some(r)
  {
    var t := Trim(s);
    var r := Read(s, limit).value;
    TrimStart(s);
    if Guarded(t) {
      assert r[|r| - 1] == t[|t| - 1];
    }
    KeptIff(r, limit);
  }

  lemma TrimStart(s: string)
    ensures Trim(s) != "" ==> !Space(Trim(s)[0]) && !Space(Trim(s)[|Trim(s)| - 1])
  {
  }

  // ---------------------------------------------------------------- what the guard is for

  /** Excel takes it for a formula: behind nothing but spaces stands a sign that opens one. */
  predicate OpensFormula(s: string) {
    exists k | 0 <= k < |s| :: s[k] in {'=', '+', '-', '@'} && forall j | 0 <= j < k :: Space(s[j])
  }

  lemma FormulaIff(s: string)
    ensures LooksLikeFormula(s) <==> OpensFormula(s)
  {
    var k := |s| - |LeftTrim(s)|;
    LeftTrimDrops(s);
    if LooksLikeFormula(s) {
      assert s[k] == LeftTrim(s)[0];
    }
    if OpensFormula(s) {
      var m :| 0 <= m < |s| && s[m] in {'=', '+', '-', '@'} && forall j | 0 <= j < m :: Space(s[j]);
      LeftTrimStops(s, m);
    }
  }

  /** No guarded text opens a formula: one that would gets an apostrophe in front, and any other is left as it is. */
  lemma GuardWorks(s: string)
    ensures !OpensFormula(Safe(s))
    ensures Safe(s) == if OpensFormula(s) then "'" + s else s
  {
    FormulaIff(s);
    hide LooksLikeFormula;
    if OpensFormula(s) {
      assert Safe(s)[0] == '\'' && !Space('\'');
    }
  }
}
