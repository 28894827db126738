/**
 * Token normalisation of the recommendation service (ml/server.py): free text and skill
 * tokens are Unicode-composed, trimmed, have `ё` folded to `е`, and skill tokens are also
 * lower-cased and mapped through a fixed synonym table; a skill list is normalised and
 * de-duplicated in first-occurrence order.
 */
module TokenNormalizer {
  import opened PyStrings

  /** A JSON value that is either a Python `str` or something else (`isinstance(x, str)`). */
  datatype Raw = Str(text: string) | NonStr

  const Yo: char := '\U{451}'          // ё
  const Ie: char := '\U{435}'          // е
  const Diaeresis: char := '\U{308}'   // combining diaeresis
  const Breve: char := '\U{306}'       // combining breve

  // ---------------------------------------------------------------------------------------
  // Canonical composition (the part of Unicode NFC this model covers)
  // ---------------------------------------------------------------------------------------

  /** `b` followed by the combining mark `m` has a canonical composite among the modelled pairs. */
  predicate Composes(b: char, m: char) {
    (m == Diaeresis && (b == '\U{435}' || b == '\U{415}')) || (m == Breve && (b == '\U{438}' || b == '\U{418}'))
  }

  /** The precomposed letters: ё, Ё, й, Й. */
  predicate IsComposite(c: char) {
    c == '\U{451}' || c == '\U{401}' || c == '\U{439}' || c == '\U{419}'
  }

  function Composite(b: char, m: char): (c: char)
    requires Composes(b, m)
    ensures IsComposite(c)
  {
    if b == '\U{435}' then '\U{451}'
    else if b == '\U{415}' then '\U{401}'
    else if b == '\U{438}' then '\U{439}'
    else '\U{419}'
  }

  /** No base letter is directly followed by a mark it composes with. */
  predicate FullyComposed(s: string) {
    forall i, j :: 0 <= i < |s| && 0 <= j < |s| && j == i + 1 ==> !Composes(s[i], s[j])
  }

  /** `unicodedata.normalize("NFC", s)`, restricted to the four Cyrillic compositions above. */
  function Nfc(s: string): (r: string)
    ensures |r| <= |s|
    ensures s != [] ==> r != [] && (r[0] == s[0] || IsComposite(r[0]))
    ensures FullyComposed(r)
    ensures forall c :: c in r && !IsComposite(c) ==> c in s
  {
    if |s| < 2 then s
    else if Composes(s[0], s[1]) then [Composite(s[0], s[1])] + Nfc(s[2..])
    else [s[0]] + Nfc(s[1..])
  }

  /** Composition leaves a fully composed string as it is; hence `Nfc` is idempotent. */
  lemma {:induction false} NfcOfComposed(s: string)
    requires FullyComposed(s)
    ensures Nfc(s) == s
  {
    if |s| >= 2 {
      assert !Composes(s[0], s[1]);
      assert FullyComposed(s[1..]) by {
        forall i | 0 <= i < |s[1..]| - 1 ensures !Composes(s[1..][i], s[1..][i + 1]) {
          assert s[1..][i] == s[i + 1] && s[1..][i + 1] == s[i + 2];
        }
      }
      NfcOfComposed(s[1..]);
    }
  }

  lemma NfcIdempotent(s: string)
    ensures Nfc(Nfc(s)) == Nfc(s)
  {
    NfcOfComposed(Nfc(s));
  }

  // ---------------------------------------------------------------------------------------
  // Letter folding
  // ---------------------------------------------------------------------------------------

  /** `s.replace("ё", "е")`, character by character. */
  function FoldYo(s: string): (r: string)
    ensures |r| == |s| && Yo !in r
  {
    if s == [] then [] else [if s[0] == Yo then Ie else s[0]] + FoldYo(s[1..])
  }

  /** Every `ё` becomes `е`, and no other character changes. */
  lemma {:induction false} FoldYoAt(s: string)
    ensures forall i :: 0 <= i < |s| ==> FoldYo(s)[i] == (if s[i] == Yo then Ie else s[i])
  {
    if s != [] {
      FoldYoAt(s[1..]);
      assert forall i :: 1 <= i < |s| ==> FoldYo(s)[i] == FoldYo(s[1..])[i - 1] && s[i] == s[1..][i - 1];
    }
  }

  /** The character-wise folding is exactly Python's `str.replace` with a one-letter pattern. */
  lemma {:induction false} FoldYoIsReplace(s: string)
    ensures FoldYo(s) == Replace(s, [Yo], [Ie])
  {
    if s != [] {
      FoldYoIsReplace(s[1..]);
      assert FoldYo(s) == [FoldYo(s)[0]] + FoldYo(s[1..]);
    }
  }

  /** `c.lower()` for Latin, Latin-1 and basic Cyrillic capitals; other characters unchanged. */
  function LowerChar(c: char): (r: char)
    ensures (r == Yo) == (c == Yo || c == '\U{401}')
    ensures IsSpace(r) == IsSpace(c)
  {
    if 'A' <= c <= 'Z' then (c as int + 32) as char
    else if '\U{C0}' <= c <= '\U{DE}' && c != '\U{D7}' then (c as int + 32) as char
    else if '\U{410}' <= c <= '\U{42F}' then (c as int + 32) as char
    else if '\U{400}' <= c <= '\U{40F}' then (c as int + 80) as char
    else c
  }

  lemma LowerCharIdempotent(c: char)
    ensures LowerChar(LowerChar(c)) == LowerChar(c)
  {
  }

  /** `s.lower()`. */
  function Lower(s: string): (r: string)
    ensures |r| == |s|
  {
    if s == [] then [] else [LowerChar(s[0])] + Lower(s[1..])
  }

  /** Each character is lower-cased on its own. */
  lemma {:induction false} LowerAt(s: string)
    ensures forall i :: 0 <= i < |s| ==> Lower(s)[i] == LowerChar(s[i])
  {
    if s != [] {
      LowerAt(s[1..]);
      assert forall i :: 1 <= i < |s| ==> Lower(s)[i] == Lower(s[1..])[i - 1] && s[i] == s[1..][i - 1];
    }
  }

  // ---------------------------------------------------------------------------------------
  // _normalize_text and _norm_token
  // ---------------------------------------------------------------------------------------

  /**
   * `_normalize_text`: a non-string becomes "", otherwise the composed, `ё`-folded, trimmed text.
   */
  function NormalizeText(v: Raw): (r: string)
    ensures v.NonStr? ==> r == ""
    ensures Yo !in r
    ensures r == [] || (!IsSpace(r[0]) && !IsSpace(r[|r| - 1]))
    ensures v.Str? ==> |r| <= |v.text|
  {
    match v
    case NonStr => ""
    case Str(s) =>
      var f := FoldYo(Nfc(s));
      StripKeepsAbsent(f, Yo);
      Strip(f)
  }

  /** The fixed synonym table of `_norm_token`; a token outside it maps to itself. */
  const Synonyms: map<string, string> := map[
    "cpp" := "c++",
    "c plus plus" := "c++",
    "c-\U{43F}\U{43B}\U{44E}\U{441}-\U{43F}\U{43B}\U{44E}\U{441}" := "c++",
    "\U{441}\U{438}" := "c",
    "js" := "javascript"
  ]

  /** `synonyms.get(s, s)`, written out key by key. */
  function Synonym(s: string): string {
    if s == "cpp" || s == "c plus plus" || s == "c-\U{43F}\U{43B}\U{44E}\U{441}-\U{43F}\U{43B}\U{44E}\U{441}" then "c++"
    else if s == "\U{441}\U{438}" then "c"
    else if s == "js" then "javascript"
    else s
  }

  /** The written-out lookup is the lookup in the synonym table. */
  lemma SynonymIsTableLookup(s: string)
    ensures Synonym(s) == if s in Synonyms then Synonyms[s] else s
  {
  }

  /** Lower-casing leaves every character of `s` as it is. */
  predicate IsLowered(s: string) {
    forall i :: 0 <= i < |s| ==> LowerChar(s[i]) == s[i]
  }

  /** The composed, trimmed, lower-cased and `ё`-folded token before the synonym lookup. */
  function FoldToken(t: string): (s: string)
  {
    FoldYo(Lower(Strip(Nfc(t))))
  }

  lemma LowerIsLowered(s: string)
    ensures IsLowered(Lower(s))
  {
    LowerAt(s);
    forall i | 0 <= i < |s| ensures LowerChar(Lower(s)[i]) == Lower(s)[i] {
      LowerCharIdempotent(s[i]);
    }
  }

  /** Folding `ё` keeps a lower-cased text lower-cased, since `е` is lower-case. */
  lemma FoldYoKeepsLowered(l: string)
    requires IsLowered(l)
    ensures IsLowered(FoldYo(l))
  {
    FoldYoAt(l);
    forall i | 0 <= i < |l| ensures LowerChar(FoldYo(l)[i]) == FoldYo(l)[i] {
      if l[i] == Yo {
        assert FoldYo(l)[i] == Ie;
      }
    }
  }

  lemma FoldTokenShape(t: string)
    ensures IsLowered(FoldToken(t)) && Yo !in FoldToken(t)
    ensures |FoldToken(t)| == |Strip(Nfc(t))|
  {
    var st := Strip(Nfc(t));
    LowerIsLowered(st);
    FoldYoKeepsLowered(Lower(st));
  }

  lemma SynonymShape(s: string)
    requires IsLowered(s) && Yo !in s
    ensures IsLowered(Synonym(s)) && Yo !in Synonym(s)
    ensures Synonym(s) == "" <==> s == ""
  {
    var c := "c++";
    assert forall i :: 0 <= i < |c| ==> LowerChar(c[i]) == c[i];
    var js := "javascript";
    assert forall i :: 0 <= i < |js| ==> LowerChar(js[i]) == js[i];
  }

  /**
   * `_norm_token`: a non-string becomes ""; otherwise the folded token, replaced by its
   * canonical spelling when it is one of the synonyms.
   */
  function NormToken(v: Raw): string {
    match v
    case NonStr => ""
    case Str(t) => Synonym(FoldToken(t))
  }

  /**
   * A non-string gives ""; a string gives a trimmed, lower-cased, `ё`-free token, empty iff
   * its trimmed text is.
   */
  lemma NormTokenShape(v: Raw)
    ensures v.NonStr? ==> NormToken(v) == ""
    ensures v.Str? ==> (NormToken(v) == "" <==> Strip(Nfc(v.text)) == "")
    ensures Yo !in NormToken(v)
    ensures IsLowered(NormToken(v))
    ensures Strip(NormToken(v)) == NormToken(v)
  {
    if v.Str? {
      FoldTokenShape(v.text);
      SynonymShape(FoldToken(v.text));
      NormTokenTrimmed(v.text);
      StripUntrimmed(NormToken(v));
    }
  }

  /** The token of a string is trimmed: so is the folded token, and the synonym step keeps that. */
  lemma NormTokenTrimmed(t: string)
    ensures var r := NormToken(Str(t)); r == [] || (!IsSpace(r[0]) && !IsSpace(r[|r| - 1]))
  {
    FoldTokenTrimmed(t);
    SynonymTrimmed(FoldToken(t));
  }

  /** The canonical spellings are trimmed, so the synonym step keeps a token trimmed. */
  lemma SynonymTrimmed(s: string)
    requires s == [] || (!IsSpace(s[0]) && !IsSpace(s[|s| - 1]))
    ensures var r := Synonym(s); r == [] || (!IsSpace(r[0]) && !IsSpace(r[|r| - 1]))
  {
    var r := Synonym(s);
    if r != s {
      if r == "c++" {
        assert r[0] == 'c' && r[2] == '+';
      } else if r == "c" {
        assert r[0] == 'c';
      } else {
        assert r == "javascript" && r[0] == 'j' && r[9] == 't';
      }
    }
  }

  /** Lower-casing and folding `ё` turn no character into whitespace, so the token stays trimmed. */
  lemma FoldTokenTrimmed(t: string)
    ensures var s := FoldToken(t); s == [] || (!IsSpace(s[0]) && !IsSpace(s[|s| - 1]))
  {
    var st := Strip(Nfc(t));
    var l := Lower(st);
    if st != [] {
      assert !IsSpace(l[0]) && !IsSpace(l[|l| - 1]) by {
        LowerAt(st);
      }
      FoldYoAt(l);
    }
  }

  lemma NfcWithoutMarks(s: string)
    requires Diaeresis !in s && Breve !in s
    ensures Nfc(s) == s
  {
    forall i | 0 <= i < |s| - 1 ensures !Composes(s[i], s[i + 1]) {
      assert s[i + 1] in s;
    }
    NfcOfComposed(s);
  }

  lemma StripUntrimmed(s: string)
    requires s == [] || (!IsSpace(s[0]) && !IsSpace(s[|s| - 1]))
    ensures Strip(s) == s
  {
  }

  /** How a token made of printable ASCII without surrounding blanks is folded. */
  lemma FoldPlainToken(t: string, lowered: string)
    requires t == [] || (!IsSpace(t[0]) && !IsSpace(t[|t| - 1]))
    requires forall i :: 0 <= i < |t| ==> ' ' <= t[i] <= '~'
    requires |lowered| == |t| && forall i :: 0 <= i < |t| ==> lowered[i] == LowerChar(t[i])
    ensures FoldToken(t) == lowered
  {
    assert Diaeresis !in t && Breve !in t;
    NfcWithoutMarks(t);
    StripUntrimmed(t);
    LowerAt(t);
    assert Lower(t) == lowered;
    assert Yo !in lowered;
    FoldYoOfFolded(lowered);
  }

  lemma SynonymExample(t: string, lowered: string, canonical: string)
    requires t != [] && !IsSpace(t[0]) && !IsSpace(t[|t| - 1])
    requires forall i :: 0 <= i < |t| ==> ' ' <= t[i] <= '~'
    requires |lowered| == |t| && forall i :: 0 <= i < |t| ==> lowered[i] == LowerChar(t[i])
    requires Synonym(lowered) == canonical
    ensures NormToken(Str(t)) == canonical
  {
    FoldPlainToken(t, lowered);
  }

  /** The synonym table at work: the spellings of C++ it lists collapse to one token. */
  lemma CppSpellingsCollapse(t: string)
    requires t == "C++" || t == "cpp" || t == "c plus plus"
    ensures NormToken(Str(t)) == "c++"
  {
    if t == "C++" {
      SynonymExample("C++", "c++", "c++");
    } else if t == "cpp" {
      SynonymExample("cpp", "cpp", "c++");
    } else {
      SynonymExample("c plus plus", "c plus plus", "c++");
    }
  }

  // ---------------------------------------------------------------------------------------
  // Idempotence of _normalize_text
  // ---------------------------------------------------------------------------------------

  lemma {:induction false} FoldYoKeepsComposed(s: string)
    requires FullyComposed(s) && Diaeresis !in s
    ensures FullyComposed(FoldYo(s)) && Diaeresis !in FoldYo(s)
  {
    var r := FoldYo(s);
    FoldYoAt(s);
    forall i | 0 <= i < |r| - 1 ensures !Composes(r[i], r[i + 1]) {
      assert s[i] in s && s[i + 1] in s;
      assert !Composes(s[i], s[i + 1]);
    }
    forall i | 0 <= i < |r| ensures r[i] != Diaeresis {
      assert s[i] in s;
    }
  }

  lemma FullyComposedSlice(s: string, i: int, j: int)
    requires FullyComposed(s) && 0 <= i <= j <= |s|
    ensures FullyComposed(s[i..j])
  {
    forall k | 0 <= k < |s[i..j]| - 1 ensures !Composes(s[i..j][k], s[i..j][k + 1]) {
      assert s[i..j][k] == s[i + k] && s[i..j][k + 1] == s[i + k + 1];
    }
  }

  lemma {:induction false} FoldYoOfFolded(s: string)
    requires Yo !in s
    ensures FoldYo(s) == s
  {
    var r := FoldYo(s);
    FoldYoAt(s);
    forall i | 0 <= i < |s| ensures r[i] == s[i] {
      assert s[i] in s;
    }
  }

  /**
   * Under the modelled compositions, `_normalize_text` is idempotent on text that holds
   * no combining diaeresis: normalising its own output changes nothing.
   */
  lemma NormalizeTextIdempotent(s: string)
    requires Diaeresis !in s
    ensures NormalizeText(Str(NormalizeText(Str(s)))) == NormalizeText(Str(s))
  {
    var n := Nfc(s);
    assert Diaeresis !in n;
    FoldYoKeepsComposed(n);
    var f := FoldYo(n);
    var t := Strip(f);
    var i, j :| 0 <= i <= j <= |f| && t == f[i..j];
    FullyComposedSlice(f, i, j);
    assert t == NormalizeText(Str(s));
    NfcOfComposed(t);
    FoldYoOfFolded(t);
    StripIdempotent(f);
  }

  /**
   * Without that restriction idempotence fails: "е" followed by two combining diaereses
   * composes to "ё" plus one diaeresis, folds to "е" plus one diaeresis, and that output
   * composes and folds once more to plain "е".
   */
  lemma NormalizeTextNotIdempotent()
    ensures NormalizeText(Str([Ie, Diaeresis, Diaeresis])) == [Ie, Diaeresis]
    ensures NormalizeText(Str([Ie, Diaeresis])) == [Ie]
  {
    assert Nfc([Ie, Diaeresis, Diaeresis]) == [Yo, Diaeresis];
    assert FoldYo([Yo, Diaeresis]) == [Ie, Diaeresis];
    assert Strip([Ie, Diaeresis]) == [Ie, Diaeresis] by {
      assert StripLeft([Ie, Diaeresis]) == [Ie, Diaeresis];
      assert StripRight([Ie, Diaeresis]) == [Ie, Diaeresis];
    }
    assert Nfc([Ie, Diaeresis]) == [Yo];
    assert FoldYo([Yo]) == [Ie];
    assert Strip([Ie]) == [Ie] by {
      assert StripLeft([Ie]) == [Ie];
      assert StripRight([Ie]) == [Ie];
    }
  }

  // ---------------------------------------------------------------------------------------
  // _norm_list
  // ---------------------------------------------------------------------------------------

  predicate Distinct(s: seq<string>) {
    forall i, j :: 0 <= i < j < |s| ==> s[i] != s[j]
  }

  /**
   * The de-duplication step of `_norm_list` on tokens already normalised, defined the way
   * its loop runs: the last token is appended when it is non-empty and not yet present.
   */
  function Dedup(ns: seq<string>): (r: seq<string>)
    ensures "" !in r
    ensures Distinct(r)
    ensures |r| <= |ns|
  {
    if ns == [] then []
    else
      var prev := Dedup(ns[..|ns| - 1]);
      var n := ns[|ns| - 1];
      if n != "" && n !in prev then prev + [n] else prev
  }

  /** The normalised form of every entry, in order. */
  function Normalized(xs: seq<Raw>): (ns: seq<string>)
    ensures |ns| == |xs|
  {
    if xs == [] then [] else Normalized(xs[..|xs| - 1]) + [NormToken(xs[|xs| - 1])]
  }

  /** Entry `i` of the normalised form is entry `i` normalised. */
  lemma {:induction false} NormalizedAt(xs: seq<Raw>, i: int)
    requires 0 <= i < |xs|
    ensures Normalized(xs)[i] == NormToken(xs[i])
  {
    if i < |xs| - 1 {
      NormalizedAt(xs[..|xs| - 1], i);
    }
  }

  /** What `_norm_list` returns for `xs`: the normalised entries, de-duplicated. */
  function NormListSpec(xs: seq<Raw>): (r: seq<string>)
    ensures "" !in r
    ensures Distinct(r)
    ensures |r| <= |xs|
  {
    Dedup(Normalized(xs))
  }

  /** Normalising one more entry appends its token. */
  lemma NormalizedSnoc(xs: seq<Raw>, x: Raw)
    ensures Normalized(xs + [x]) == Normalized(xs) + [NormToken(x)]
  {
    assert (xs + [x])[..|xs|] == xs;
  }

  /** `_norm_list`: normalises each entry, drops empty results and repeated tokens. */
  method NormList(xs: seq<Raw>) returns (out: seq<string>)
    ensures out == NormListSpec(xs)
  {
    out := [];
    var seen: set<string> := {};
    for i := 0 to |xs|
      invariant out == Dedup(Normalized(xs[..i]))
      invariant forall t :: t in seen <==> t in out
    {
      var n := NormToken(xs[i]);
      assert xs[..i + 1] == xs[..i] + [xs[i]];
      NormListStep(xs[..i], xs[i], n);
      if n != "" && n !in seen {
        out := out + [n];
        seen := seen + {n};
      }
    }
    assert xs[..|xs|] == xs;
  }

  /** One more token is appended iff it is non-empty and not yet listed. */
  lemma DedupStep(ns: seq<string>, n: string)
    ensures Dedup(ns + [n]) == if n != "" && n !in Dedup(ns) then Dedup(ns) + [n] else Dedup(ns)
  {
    assert (ns + [n])[..|ns|] == ns;
  }

  /** A token is listed iff it is non-empty and occurs among the tokens. */
  lemma {:induction false} DedupMembers(ns: seq<string>, t: string)
    ensures t in Dedup(ns) <==> t != "" && t in ns
  {
    if ns != [] {
      var init := ns[..|ns| - 1];
      DedupMembers(init, t);
      assert ns == init + [ns[|ns| - 1]];
    }
  }

  /** A token is in the list iff it is non-empty and some entry normalises to it. */
  lemma NormListMembers(xs: seq<Raw>, t: string)
    ensures t in NormListSpec(xs) <==> t != "" && t in Normalized(xs)
  {
    DedupMembers(Normalized(xs), t);
  }

  /** The position of the first occurrence of `t` in `ns`. */
  function FirstIndex(ns: seq<string>, t: string): (k: nat)
    requires t in ns
    ensures k < |ns| && ns[k] == t && t !in ns[..k]
  {
    if ns[0] == t then 0 else 1 + FirstIndex(ns[1..], t)
  }

  lemma {:induction false} FirstIndexPrefix(ns: seq<string>, m: nat, t: string)
    requires m <= |ns| && t in ns[..m]
    ensures t in ns && FirstIndex(ns, t) == FirstIndex(ns[..m], t)
  {
    if ns[0] != t {
      assert ns[1..][..m - 1] == ns[..m][1..];
      FirstIndexPrefix(ns[1..], m - 1, t);
    }
  }

  /** De-duplication keeps first-occurrence order. */
  lemma {:induction false} DedupFirstOccurrenceOrder(ns: seq<string>, i: int, j: int)
    requires 0 <= i < j < |Dedup(ns)|
    ensures Dedup(ns)[i] in ns && Dedup(ns)[j] in ns
    ensures FirstIndex(ns, Dedup(ns)[i]) < FirstIndex(ns, Dedup(ns)[j])
  {
    var r := Dedup(ns);
    var m := |ns| - 1;
    var init := ns[..m];
    var prev := Dedup(init);
    DedupMembers(ns, r[i]);
    DedupMembers(ns, r[j]);
    assert ns == init + [ns[m]];
    DedupStep(init, ns[m]);
    assert r[i] == prev[i];
    DedupMembers(init, r[i]);
    FirstIndexPrefix(ns, m, r[i]);
    if j < |prev| {
      assert r[j] == prev[j];
      DedupFirstOccurrenceOrder(init, i, j);
      DedupMembers(init, r[j]);
      FirstIndexPrefix(ns, m, r[j]);
    } else {
      // r[j] is the last token, met for the first time
      assert r[j] == ns[m] && r[j] !in prev;
      DedupMembers(init, r[j]);
      assert FirstIndex(ns, r[j]) == m;
    }
  }

  /**
   * The list keeps first-occurrence order: a token listed before another first occurs, among
   * the normalised entries, before the other does.
   */
  lemma NormListFirstOccurrenceOrder(xs: seq<Raw>, i: int, j: int)
    requires 0 <= i < j < |NormListSpec(xs)|
    ensures NormListSpec(xs)[i] in Normalized(xs) && NormListSpec(xs)[j] in Normalized(xs)
    ensures FirstIndex(Normalized(xs), NormListSpec(xs)[i]) < FirstIndex(Normalized(xs), NormListSpec(xs)[j])
  {
    DedupFirstOccurrenceOrder(Normalized(xs), i, j);
  }

  lemma NormListStep(xs: seq<Raw>, x: Raw, n: string)
    requires NormToken(x) == n
    ensures NormListSpec(xs + [x]) == if n != "" && n !in NormListSpec(xs) then NormListSpec(xs) + [n] else NormListSpec(xs)
  {
    NormalizedSnoc(xs, x);
    DedupStep(Normalized(xs), n);
  }

  /** Two different non-empty tokens are both kept, in order. */
  lemma DedupTwo(ns: seq<string>, p: string, q: string)
    requires ns == [p, q] && p != "" && q != "" && p != q
    ensures Dedup(ns[..1]) == [p]
    ensures Dedup(ns) == [p, q]
  {
    assert ns[..1][..0] == [];
    assert ns[..1] == [p];
  }

  /** A second token equal to the first is dropped; a new third token is kept. */
  lemma DedupDropsRepeat(ns: seq<string>, p: string, q: string)
    requires ns == [p, p, q] && p != "" && q != "" && p != q
    ensures Dedup(ns) == [p, q]
  {
    assert Dedup([p]) == [p] by {
      DedupStep([], p);
      assert [] + [p] == [p];
    }
    assert Dedup([p, p]) == [p] by {
      DedupStep([p], p);
      assert [p] + [p] == [p, p];
    }
    assert Dedup([p, p, q]) == [p, q] by {
      DedupStep([p, p], q);
      assert [p, p] + [q] == [p, p, q];
      assert q !in [p];
    }
  }

  /** A single non-empty token is kept. */
  lemma DedupOne(ns: seq<string>, p: string)
    requires ns == [p] && p != ""
    ensures Dedup(ns) == [p]
  {
    assert ns[..0] == [];
  }

  /** Two entries, position by position. */
  lemma NormalizedPair(xs: seq<Raw>)
    requires |xs| == 2
    ensures Normalized(xs) == [NormToken(xs[0]), NormToken(xs[1])]
  {
    NormalizedAt(xs, 0);
    NormalizedAt(xs, 1);
  }

  /** Three entries, position by position. */
  lemma NormalizedTriple(xs: seq<Raw>)
    requires |xs| == 3
    ensures Normalized(xs) == [NormToken(xs[0]), NormToken(xs[1]), NormToken(xs[2])]
  {
    NormalizedAt(xs, 0);
    NormalizedAt(xs, 1);
    NormalizedAt(xs, 2);
  }

  /** The worked example: "C++" and "cpp" collapse to one canonical token, kept once. */
  lemma NormListExample(xs: seq<Raw>)
    requires xs == [Str("C++"), Str("cpp"), Str("Python")]
    ensures NormListSpec(xs) == ["c++", "python"]
  {
    assert NormToken(xs[2]) == "python" by {
      SynonymExample(xs[2].text, "python", "python");
    }
    CppSpellingsCollapse(xs[0].text);
    CppSpellingsCollapse(xs[1].text);
    NormalizedTriple(xs);
    assert Normalized(xs) == ["c++", "c++", "python"];
    DedupDropsRepeat(Normalized(xs), "c++", "python");
  }
}
