/**
 * `_decode_backslash_escapes` of the support bot (tech_support/main.py), which turns the
 * literal escape sequences a chat reply may contain into the characters they stand for.
 *
 * `DecodeAsWritten` is the code's sequence of rewrites: `\uXXXX` first, then `\r\n`, `\n`,
 * `\r`, `\t`, `\"`, and `\\` last, each over the whole text. Because the doubled backslash
 * is collapsed last, an escaped backslash followed by `n`, `r`, `t`, `"` or `uXXXX` is
 * decoded as if the second backslash started an escape. `Decode` reads the text once, left
 * to right, so that `\\` stands for one backslash; it undoes `Escape`.
 */
module Escapes {
  import opened PyStrings

  const Backslash: char := '\\'

  predicate IsHex(c: char) {
    ('0' <= c <= '9') || ('a' <= c <= 'f') || ('A' <= c <= 'F')
  }

  function HexValue(c: char): (v: nat)
    requires IsHex(c)
    ensures v < 16
  {
    if '0' <= c <= '9' then c as int - '0' as int
    else if 'a' <= c <= 'f' then c as int - 'a' as int + 10
    else c as int - 'A' as int + 10
  }

  /** The value of four hex digits. */
  function Hex4(h: string): (v: nat)
    requires |h| == 4 && forall i :: 0 <= i < 4 ==> IsHex(h[i])
    ensures v < 0x1_0000
  {
    ((HexValue(h[0]) * 16 + HexValue(h[1])) * 16 + HexValue(h[2])) * 16 + HexValue(h[3])
  }

  /** `s` starts with `\u` and four hex digits naming a character (not a surrogate). */
  predicate StartsWithUnicodeEscape(s: string) {
    && |s| >= 6 && s[0] == Backslash && s[1] == 'u'
    && (forall i :: 2 <= i < 6 ==> IsHex(s[i]))
    && !(0xD800 <= Hex4(s[2..6]) < 0xE000)
  }

  /** The character a `\uXXXX` escape at the start of `s` names. */
  function EscapedChar(s: string): char
    requires StartsWithUnicodeEscape(s)
  {
    Hex4(s[2..6]) as char
  }

  /** `UNICODE_ESC_RE.sub(...)`: every `\uXXXX`, found left to right, becomes its character. */
  function UnicodeEscapes(s: string): (r: string)
    ensures |r| <= |s|
    decreases |s|
  {
    if s == [] then []
    else if StartsWithUnicodeEscape(s) then [EscapedChar(s)] + UnicodeEscapes(s[6..])
    else [s[0]] + UnicodeEscapes(s[1..])
  }

  /** Text without a backslash has no `\uXXXX` escape to rewrite. */
  lemma {:induction false} UnicodeEscapesNoBackslash(s: string)
    requires Backslash !in s
    ensures UnicodeEscapes(s) == s
    decreases |s|
  {
    if s != [] {
      assert !StartsWithUnicodeEscape(s);
      assert Backslash !in s[1..] by {
        assert forall c :: c in s[1..] ==> c in s;
      }
      UnicodeEscapesNoBackslash(s[1..]);
    }
  }

  /** Without a letter `u` there is no `\uXXXX` escape to rewrite. */
  lemma {:induction false} UnicodeEscapesWithoutU(s: string)
    requires 'u' !in s
    ensures UnicodeEscapes(s) == s
    decreases |s|
  {
    if s != [] {
      assert !StartsWithUnicodeEscape(s);
      UnicodeEscapesWithoutU(s[1..]);
    }
  }

  /** The lower-case hex digit of a value below 16, written independently of `HexValue`. */
  function HexDigit(d: nat): (c: char)
    requires d < 16
    ensures IsHex(c) && HexValue(c) == d
  {
    if d < 10 then ('0' as int + d) as char else ('a' as int + d - 10) as char
  }

  /** The four hex digits of a character of the Basic Multilingual Plane, most significant first. */
  function Hex4Of(c: char): (h: string)
    requires c as int < 0x1_0000
    ensures |h| == 4 && forall i :: 0 <= i < 4 ==> IsHex(h[i])
  {
    var n := c as int;
    [HexDigit(n / 16 / 16 / 16), HexDigit(n / 16 / 16 % 16), HexDigit(n / 16 % 16), HexDigit(n % 16)]
  }

  /** Reading the four digits back gives the character's code. */
  lemma Hex4OfValue(c: char)
    requires c as int < 0x1_0000
    ensures Hex4(Hex4Of(c)) == c as int
  {
    var n := c as int;
    var a := n / 16;
    var b := a / 16;
    assert b / 16 * 16 + b % 16 == b;
    assert a / 16 * 16 + a % 16 == a;
    assert n / 16 * 16 + n % 16 == n;
  }

  /**
   * `\u` followed by the four hex digits of a character that is not a surrogate is rewritten
   * to that character, and the search goes on after the escape.
   */
  lemma UnicodeEscapeOfChar(c: char, rest: string)
    requires c as int < 0x1_0000 && !(0xD800 <= c as int < 0xE000)
    ensures UnicodeEscapes([Backslash, 'u'] + Hex4Of(c) + rest) == [c] + UnicodeEscapes(rest)
  {
    var s := [Backslash, 'u'] + Hex4Of(c) + rest;
    assert s[2..6] == Hex4Of(c);
    Hex4OfValue(c);
    assert s[6..] == rest;
  }

  /** A character other than a backslash starts no escape and is copied. */
  lemma UnicodeEscapesCons(c: char, x: string)
    requires c != Backslash
    ensures UnicodeEscapes([c] + x) == [c] + UnicodeEscapes(x)
  {
    assert ([c] + x)[1..] == x;
  }

  /** Text without a backslash is copied in front of whatever the rest rewrites to. */
  lemma {:induction false} UnicodeEscapesPrefix(a: string, x: string)
    requires forall i :: 0 <= i < |a| ==> a[i] != Backslash
    ensures UnicodeEscapes(a + x) == a + UnicodeEscapes(x)
    decreases |a|
  {
    if a == [] {
      assert a + x == x;
    } else {
      var t := a[1..];
      assert a + x == [a[0]] + (t + x) && a == [a[0]] + t;
      UnicodeEscapesCons(a[0], t + x);
      UnicodeEscapesPrefix(t, x);
    }
  }

  /** A backslash followed by a letter other than `u` (and other than a backslash) is kept. */
  lemma UnicodeEscapesSkipPair(y: char, x: string)
    requires y != 'u' && y != Backslash
    ensures UnicodeEscapes([Backslash, y] + x) == [Backslash, y] + UnicodeEscapes(x)
  {
    var s := [Backslash, y] + x;
    assert s[1..] == [y] + x;
    assert ([y] + x)[1..] == x;
  }

  /** A backslash not followed by `u` starts no `\uXXXX` escape and is kept. */
  lemma UnicodeEscapesSkipBackslash(x: string)
    requires x == [] || x[0] != 'u'
    ensures UnicodeEscapes([Backslash] + x) == [Backslash] + UnicodeEscapes(x)
  {
    assert ([Backslash] + x)[1..] == x;
  }

  /** `_decode_backslash_escapes` as written: one whole-text rewrite after another. */
  function DecodeAsWritten(s: string): string {
    if s == [] then s
    else
      var u := UnicodeEscapes(s);
      var a := Replace(u, "\\r\\n", "\n");
      var b := Replace(a, "\\n", "\n");
      var c := Replace(b, "\\r", "\r");
      var d := Replace(c, "\\t", "    ");
      var e := Replace(d, "\\\"", "\"");
      Replace(e, "\\\\", "\\")
  }

  /** Text without a backslash comes back unchanged. */
  lemma NoBackslashAsWritten(s: string)
    requires Backslash !in s
    ensures DecodeAsWritten(s) == s
  {
    if s != [] {
      UnicodeEscapesNoBackslash(s);
      ReplaceAbsent(s, "\\r\\n", "\n");
      ReplaceAbsent(s, "\\n", "\n");
      ReplaceAbsent(s, "\\r", "\r");
      ReplaceAbsent(s, "\\t", "    ");
      ReplaceAbsent(s, "\\\"", "\"");
      ReplaceAbsent(s, "\\\\", "\\");
    }
  }

  /** One occurrence of a backslash pattern between backslash-free texts is replaced once. */
  lemma ReplaceOnce(a: string, pat: string, b: string, rep: string)
    requires pat != [] && pat[0] == Backslash && Backslash !in a && Backslash !in b
    ensures Replace(a + pat + b, pat, rep) == a + rep + b
  {
    assert a + pat + b == a + (pat + b);
    ReplaceSkipsPrefix(a, pat + b, pat, rep);
    ReplaceAtFront(b, pat, rep);
    ReplaceAbsent(b, pat, rep);
  }

  /** A backslash pattern that does not start at the one backslash pair of the text matches nowhere. */
  lemma ReplaceMissesPair(a: string, y: char, b: string, pat: string, rep: string)
    requires pat != [] && pat[0] == Backslash && y != Backslash
    requires Backslash !in a && Backslash !in b && !(pat <= [Backslash, y] + b)
    ensures Replace(a + [Backslash, y] + b, pat, rep) == a + [Backslash, y] + b
  {
    var t := [Backslash, y] + b;
    assert a + [Backslash, y] + b == a + t;
    ReplaceSkipsPrefix(a, t, pat, rep);
    assert t[1..] == [y] + b;
    ReplaceAbsent([y] + b, pat, rep);
  }

  /** A backslash pair other than `\u` after backslash-free text is kept. */
  lemma UnicodeEscapesKeepsPair(a: string, y: char, x: string)
    requires Backslash !in a && y != 'u' && y != Backslash
    ensures UnicodeEscapes(a + [Backslash, y] + x) == a + [Backslash, y] + UnicodeEscapes(x)
  {
    assert a + [Backslash, y] + x == a + ([Backslash, y] + x);
    UnicodeEscapesPrefix(a, [Backslash, y] + x);
    UnicodeEscapesSkipPair(y, x);
    assert a + ([Backslash, y] + UnicodeEscapes(x)) == a + [Backslash, y] + UnicodeEscapes(x);
  }

  /** As written, the rewrites before the tab rule leave a backslash pair other than `\u`, `\n` and `\r` alone. */
  lemma AsWrittenBeforeTab(a: string, y: char, b: string)
    requires Backslash !in a && Backslash !in b
    requires y != 'u' && y != 'n' && y != 'r' && y != Backslash
    ensures var s := a + [Backslash, y] + b;
      Replace(Replace(Replace(UnicodeEscapes(s), "\\r\\n", "\n"), "\\n", "\n"), "\\r", "\r") == s
  {
    var s := a + [Backslash, y] + b;
    assert UnicodeEscapes(s) == s by {
      UnicodeEscapesKeepsPair(a, y, b);
      UnicodeEscapesNoBackslash(b);
    }
    assert ([Backslash, y] + b)[1] == y;
    ReplaceMissesPair(a, y, b, "\\r\\n", "\n");
    ReplaceMissesPair(a, y, b, "\\n", "\n");
    ReplaceMissesPair(a, y, b, "\\r", "\r");
  }

  /** As written, `\t` between texts without a backslash becomes four spaces. */
  lemma AsWrittenTab(a: string, b: string)
    requires Backslash !in a && Backslash !in b
    ensures DecodeAsWritten(a + "\\t" + b) == a + "    " + b
  {
    var s := a + "\\t" + b;
    assert |s| >= 2;
    var t := a + "    " + b;
    assert Replace(Replace(Replace(Replace(UnicodeEscapes(s), "\\r\\n", "\n"), "\\n", "\n"), "\\r", "\r"), "\\t", "    ") == t by {
      AsWrittenBeforeTab(a, 't', b);
      ReplaceOnce(a, "\\t", b, "    ");
    }
    assert Replace(Replace(t, "\\\"", "\""), "\\\\", "\\") == t by {
      assert Backslash !in t;
      ReplaceAbsent(t, "\\\"", "\"");
      ReplaceAbsent(t, "\\\\", "\\");
    }
  }

  /** A backslash pattern whose second character is not a backslash misses a doubled backslash. */
  lemma ReplaceMissesDoubled(a: string, b: string, pat: string, rep: string)
    requires |pat| >= 2 && pat[0] == Backslash && pat[1] != Backslash
    requires Backslash !in a && Backslash !in b && !(pat <= [Backslash] + b)
    ensures Replace(a + [Backslash, Backslash] + b, pat, rep) == a + [Backslash, Backslash] + b
  {
    var t := [Backslash, Backslash] + b;
    assert a + [Backslash, Backslash] + b == a + t;
    ReplaceSkipsPrefix(a, t, pat, rep);
    assert t[1] == Backslash && t[1..] == [Backslash] + b;
    ReplaceSkip(t, pat, rep);
    ReplaceSkip([Backslash] + b, pat, rep);
    assert ([Backslash] + b)[1..] == b;
    ReplaceAbsent(b, pat, rep);
  }

  /**
   * As written, the rewrites before the last one leave `\\` between backslash-free texts
   * alone when the text after it does not start one of the other escapes.
   */
  lemma AsWrittenBeforeBackslashPair(a: string, b: string)
    requires Backslash !in a && Backslash !in b
    requires b == [] || (b[0] != 'n' && b[0] != 'r' && b[0] != 't' && b[0] != '"' && b[0] != 'u')
    ensures var s := a + [Backslash, Backslash] + b;
      Replace(Replace(Replace(Replace(Replace(UnicodeEscapes(s), "\\r\\n", "\n"), "\\n", "\n"), "\\r", "\r"), "\\t", "    "), "\\\"", "\"") == s
  {
    var s := a + [Backslash, Backslash] + b;
    assert UnicodeEscapes(s) == s by {
      assert s == a + ([Backslash] + ([Backslash] + b));
      UnicodeEscapesPrefix(a, [Backslash] + ([Backslash] + b));
      UnicodeEscapesSkipBackslash([Backslash] + b);
      UnicodeEscapesSkipBackslash(b);
      UnicodeEscapesNoBackslash(b);
    }
    assert b != [] ==> ([Backslash] + b)[1] == b[0];
    ReplaceMissesDoubled(a, b, "\\r\\n", "\n");
    ReplaceMissesDoubled(a, b, "\\n", "\n");
    ReplaceMissesDoubled(a, b, "\\r", "\r");
    ReplaceMissesDoubled(a, b, "\\t", "    ");
    ReplaceMissesDoubled(a, b, "\\\"", "\"");
  }

  /**
   * As written, `\\` between texts without a backslash becomes one backslash (the last
   * rewrite), when the text after it does not start one of the other escapes.
   */
  lemma AsWrittenBackslashPair(a: string, b: string)
    requires Backslash !in a && Backslash !in b
    requires b == [] || (b[0] != 'n' && b[0] != 'r' && b[0] != 't' && b[0] != '"' && b[0] != 'u')
    ensures DecodeAsWritten(a + "\\\\" + b) == a + "\\" + b
  {
    var s := a + "\\\\" + b;
    assert |s| >= 2;
    assert s == a + [Backslash, Backslash] + b;
    AsWrittenBeforeBackslashPair(a, b);
    ReplaceOnce(a, "\\\\", b, "\\");
  }

  /** As written, the rewrites after the `\r\n` rule leave backslash-free text alone. */
  lemma AsWrittenAfterCrLf(t: string)
    requires Backslash !in t
    ensures Replace(Replace(Replace(Replace(Replace(t, "\\n", "\n"), "\\r", "\r"), "\\t", "    "), "\\\"", "\""), "\\\\", "\\") == t
  {
    ReplaceAbsent(t, "\\n", "\n");
    ReplaceAbsent(t, "\\r", "\r");
    ReplaceAbsent(t, "\\t", "    ");
    ReplaceAbsent(t, "\\\"", "\"");
    ReplaceAbsent(t, "\\\\", "\\");
  }

  /** There is no `\uXXXX` in `\r\n` between backslash-free texts. */
  lemma UnicodeEscapesCrLf(a: string, b: string)
    requires Backslash !in a && Backslash !in b
    ensures UnicodeEscapes(a + "\\r\\n" + b) == a + "\\r\\n" + b
  {
    var x := [Backslash, 'n'] + b;
    UnicodeEscapesKeepsPair(a, 'r', x);
    assert UnicodeEscapes(x) == x by {
      UnicodeEscapesSkipPair('n', b);
      UnicodeEscapesNoBackslash(b);
    }
    assert a + "\\r\\n" + b == a + [Backslash, 'r'] + x;
  }

  /** As written, `\r\n` between texts without a backslash becomes one line feed. */
  lemma AsWrittenCrLf(a: string, b: string)
    requires Backslash !in a && Backslash !in b
    ensures DecodeAsWritten(a + "\\r\\n" + b) == a + "\n" + b
  {
    var s := a + "\\r\\n" + b;
    assert |s| >= 4;
    var t := a + "\n" + b;
    assert Replace(UnicodeEscapes(s), "\\r\\n", "\n") == t by {
      UnicodeEscapesCrLf(a, b);
      ReplaceOnce(a, "\\r\\n", b, "\n");
    }
    assert Backslash !in t;
    AsWrittenAfterCrLf(t);
  }

  // ---------------------------------------------------------------------------------------
  // The single-pass decoder and the escaping it undoes
  // ---------------------------------------------------------------------------------------

  /**
   * The escapes read left to right: `\\`, `\n`, `\r\n` and `\r`, `\t` (four spaces), `\"`
   * and `\uXXXX`; a backslash that starts none of them is kept.
   */
  function Decode(s: string): (r: string)
    ensures Backslash !in s ==> r == s
    decreases |s|
  {
    if s == [] then []
    else if |s| < 2 || s[0] != Backslash then [s[0]] + Decode(s[1..])
    else if s[1] == Backslash then [Backslash] + Decode(s[2..])
    else if s[1] == 'n' then "\n" + Decode(s[2..])
    else if s[1] == 'r' then
      if |s| >= 4 && s[2] == Backslash && s[3] == 'n' then "\n" + Decode(s[4..]) else "\r" + Decode(s[2..])
    else if s[1] == 't' then "    " + Decode(s[2..])
    else if s[1] == '"' then "\"" + Decode(s[2..])
    else if StartsWithUnicodeEscape(s) then [EscapedChar(s)] + Decode(s[6..])
    else [Backslash] + Decode(s[1..])
  }

  /** The escape of one character: backslash, line feed, carriage return and `"` are escaped. */
  function EscapeChar(c: char): (e: string)
    ensures e != [] && (e[0] == Backslash <==> |e| == 2)
  {
    if c == Backslash then "\\\\"
    else if c == '\n' then "\\n"
    else if c == '\r' then "\\r"
    else if c == '"' then "\\\""
    else [c]
  }

  function Escape(s: string): string {
    if s == [] then [] else EscapeChar(s[0]) + Escape(s[1..])
  }

  /** A carriage return directly followed by a line feed, which the decoder folds into one. */
  predicate HasCrLf(s: string) {
    exists i :: 0 <= i < |s| - 1 && s[i] == '\r' && s[i + 1] == '\n'
  }

  /** The escape of a text starts with `\n` iff the text starts with a line feed. */
  lemma {:induction false} EscapeStartsWithNewline(t: string)
    ensures (|Escape(t)| >= 2 && Escape(t)[0] == Backslash && Escape(t)[1] == 'n') <==> (t != [] && t[0] == '\n')
  {
    if t != [] {
      var e := EscapeChar(t[0]);
      assert Escape(t) == e + Escape(t[1..]);
      if |e| == 1 {
        assert Escape(t)[0] == e[0] != Backslash;
      }
    }
  }

  /** Decoding undoes one escaped character. */
  lemma {:induction false} DecodeEscapeChar(c: char, rest: string)
    requires c == '\r' ==> !(|rest| >= 2 && rest[0] == Backslash && rest[1] == 'n')
    ensures Decode(EscapeChar(c) + rest) == [c] + Decode(rest)
  {
    var s := EscapeChar(c) + rest;
    if |EscapeChar(c)| == 1 {
      assert s[1..] == rest;
    } else {
      assert s[2..] == rest;
    }
  }

  /** `Decode` undoes `Escape` on every text without a CR LF pair. */
  lemma {:induction false} DecodeEscape(s: string)
    requires !HasCrLf(s)
    ensures Decode(Escape(s)) == s
  {
    if s != [] {
      var t := s[1..];
      forall i | 0 <= i < |t| - 1
        ensures !(t[i] == '\r' && t[i + 1] == '\n')
      {
        assert t[i] == s[i + 1] && t[i + 1] == s[i + 2];
      }
      DecodeEscape(t);
      EscapeStartsWithNewline(t);
      if s[0] == '\r' && t != [] {
        assert t[0] != '\n' by {
          assert !(s[0] == '\r' && s[1] == '\n');
        }
      }
      DecodeEscapeChar(s[0], Escape(t));
      assert s == [s[0]] + t;
    }
  }

  // ---------------------------------------------------------------------------------------
  // Where the rewrites do undo the escaping: text without a backslash
  // ---------------------------------------------------------------------------------------

  /** The text with every character replaced by its image under `f`. */
  function MapChars(s: string, f: char -> string): (r: string)
    ensures s == [] ==> r == []
  {
    if s == [] then [] else f(s[0]) + MapChars(s[1..], f)
  }

  lemma {:induction false} EscapeIsMapChars(s: string)
    ensures Escape(s) == MapChars(s, EscapeChar)
  {
    if s != [] {
      EscapeIsMapChars(s[1..]);
    }
  }

  /**
   * An image the backslash patterns cannot straddle: one character other than a backslash,
   * or a backslash and one character other than a backslash.
   */
  predicate Unit(e: string) {
    (|e| == 1 && e[0] != Backslash) || (|e| == 2 && e[0] == Backslash && e[1] != Backslash)
  }

  /** A pattern that does not start at a backslash pair is looked for after that pair. */
  lemma ReplaceAfterPair(e: string, rest: string, pat: string, rep: string)
    requires |e| == 2 && e[0] == Backslash && e[1] != Backslash
    requires pat != [] && pat[0] == Backslash && !(pat <= e + rest)
    ensures Replace(e + rest, pat, rep) == e + Replace(rest, pat, rep)
  {
    var s := e + rest;
    assert s[1..] == [e[1]] + rest;
    ReplaceSkipsPrefix([e[1]], rest, pat, rep);
    assert e == [e[0]] + [e[1]];
  }

  /**
   * Replacing a backslash pair `\x` in a text of units replaces exactly the units equal to
   * it: the result is the text mapped by `g`.
   */
  lemma {:induction false} ReplaceMapped(s: string, f: char -> string, g: char -> string, x: char, rep: string)
    requires x != Backslash
    requires forall c :: c in s ==> Unit(f(c))
    requires forall c :: c in s ==> g(c) == if f(c) == [Backslash, x] then rep else f(c)
    ensures Replace(MapChars(s, f), [Backslash, x], rep) == MapChars(s, g)
    decreases |s|
  {
    if s != [] {
      var pat := [Backslash, x];
      var e := f(s[0]);
      var rest := MapChars(s[1..], f);
      assert s[0] in s;
      assert forall c :: c in s[1..] ==> c in s;
      ReplaceMapped(s[1..], f, g, x, rep);
      assert MapChars(s, f) == e + rest;
      if e == pat {
        ReplaceAtFront(rest, pat, rep);
      } else if |e| == 1 {
        ReplaceSkipsPrefix(e, rest, pat, rep);
      } else {
        assert (e + rest)[1] == e[1];
        ReplaceAfterPair(e, rest, pat, rep);
      }
    }
  }

  /** No unit is a `\u` escape, so there is no `\uXXXX` to rewrite. */
  lemma {:induction false} UnicodeEscapesOfUnits(s: string, f: char -> string)
    requires forall c :: c in s ==> Unit(f(c)) && !(|f(c)| == 2 && f(c)[1] == 'u')
    ensures UnicodeEscapes(MapChars(s, f)) == MapChars(s, f)
    decreases |s|
  {
    if s != [] {
      var e := f(s[0]);
      var rest := MapChars(s[1..], f);
      assert s[0] in s;
      assert forall c :: c in s[1..] ==> c in s;
      UnicodeEscapesOfUnits(s[1..], f);
      var t := e + rest;
      assert MapChars(s, f) == t;
      assert !StartsWithUnicodeEscape(t);
      if |e| == 2 {
        assert t[1..] == [e[1]] + rest;
        assert ([e[1]] + rest)[1..] == rest;
        assert !StartsWithUnicodeEscape([e[1]] + rest);
        assert e == [e[0]] + [e[1]];
      } else {
        assert t[1..] == rest;
      }
    }
  }

  /** Without a CR LF pair the escaped text holds no `\r\n`. */
  lemma {:induction false} EscapedHasNoCrLf(s: string)
    requires Backslash !in s && !HasCrLf(s)
    ensures Replace(Escape(s), "\\r\\n", "\n") == Escape(s)
    decreases |s|
  {
    if s != [] {
      var pat := "\\r\\n";
      var t := s[1..];
      var e := EscapeChar(s[0]);
      assert Escape(s) == e + Escape(t);
      assert !HasCrLf(t) by {
        forall i | 0 <= i < |t| - 1
          ensures !(t[i] == '\r' && t[i + 1] == '\n')
        {
          assert t[i] == s[i + 1] && t[i + 1] == s[i + 2];
        }
      }
      assert Backslash !in t by {
        assert forall c :: c in t ==> c in s;
      }
      EscapedHasNoCrLf(t);
      if |e| == 1 {
        ReplaceSkipsPrefix(e, Escape(t), pat, "\n");
      } else {
        assert !(pat <= e + Escape(t)) by {
          if s[0] == '\r' {
            EscapeStartsWithNewline(t);
            if t != [] {
              assert t[0] != '\n' by {
                assert !(s[0] == '\r' && s[1] == '\n');
              }
            }
            assert (e + Escape(t))[2..] == Escape(t);
          } else {
            assert (e + Escape(t))[1] == e[1] != 'r';
          }
        }
        ReplaceAfterPair(e, Escape(t), pat, "\n");
      }
    }
  }

  /** The units after `\n` is rewritten. */
  function NewlineDecoded(c: char): string {
    if c == '\n' then "\n" else EscapeChar(c)
  }

  /** The units after `\r` is rewritten too. */
  function CrDecoded(c: char): string {
    if c == '\n' || c == '\r' then [c] else EscapeChar(c)
  }

  function Keep(c: char): string {
    [c]
  }

  lemma {:induction false} KeepIsIdentity(s: string)
    ensures MapChars(s, Keep) == s
  {
    if s != [] {
      KeepIsIdentity(s[1..]);
    }
  }

  /** Step by step, the rewrites of `DecodeAsWritten` on the escape of text without a backslash. */
  lemma UnicodeStep(s: string)
    requires Backslash !in s
    ensures UnicodeEscapes(MapChars(s, EscapeChar)) == MapChars(s, EscapeChar)
  {
    forall c | c in s
      ensures Unit(EscapeChar(c)) && !(|EscapeChar(c)| == 2 && EscapeChar(c)[1] == 'u')
    {
    }
    UnicodeEscapesOfUnits(s, EscapeChar);
  }

  lemma NewlineStep(s: string)
    requires Backslash !in s
    ensures Replace(MapChars(s, EscapeChar), "\\n", "\n") == MapChars(s, NewlineDecoded)
  {
    forall c | c in s
      ensures Unit(EscapeChar(c))
      ensures NewlineDecoded(c) == if EscapeChar(c) == [Backslash, 'n'] then "\n" else EscapeChar(c)
    {
    }
    ReplaceMapped(s, EscapeChar, NewlineDecoded, 'n', "\n");
  }

  lemma CrStep(s: string)
    requires Backslash !in s
    ensures Replace(MapChars(s, NewlineDecoded), "\\r", "\r") == MapChars(s, CrDecoded)
  {
    forall c | c in s
      ensures Unit(NewlineDecoded(c))
      ensures CrDecoded(c) == if NewlineDecoded(c) == [Backslash, 'r'] then "\r" else NewlineDecoded(c)
    {
    }
    ReplaceMapped(s, NewlineDecoded, CrDecoded, 'r', "\r");
  }

  lemma TabStep(s: string)
    requires Backslash !in s
    ensures Replace(MapChars(s, CrDecoded), "\\t", "    ") == MapChars(s, CrDecoded)
  {
    forall c | c in s
      ensures Unit(CrDecoded(c))
      ensures CrDecoded(c) == if CrDecoded(c) == [Backslash, 't'] then "    " else CrDecoded(c)
    {
    }
    ReplaceMapped(s, CrDecoded, CrDecoded, 't', "    ");
  }

  lemma QuoteStep(s: string)
    requires Backslash !in s
    ensures Replace(MapChars(s, CrDecoded), "\\\"", "\"") == s
  {
    forall c | c in s
      ensures Unit(CrDecoded(c))
      ensures Keep(c) == if CrDecoded(c) == [Backslash, '"'] then "\"" else CrDecoded(c)
    {
    }
    ReplaceMapped(s, CrDecoded, Keep, '"', "\"");
    KeepIsIdentity(s);
  }

  /**
   * On text without a backslash or a CR LF pair, the rewrites as written undo `Escape`:
   * every escape in such a text stands for the character it was made from.
   */
  lemma AsWrittenDecodesEscape(s: string)
    requires Backslash !in s && !HasCrLf(s)
    ensures DecodeAsWritten(Escape(s)) == s
  {
    var e := Escape(s);
    if s != [] {
      assert e != [] by {
        assert e == EscapeChar(s[0]) + Escape(s[1..]);
      }
      EscapeIsMapChars(s);
      var b := MapChars(s, NewlineDecoded);
      var c := MapChars(s, CrDecoded);
      assert Replace(Replace(UnicodeEscapes(e), "\\r\\n", "\n"), "\\n", "\n") == b by {
        UnicodeStep(s);
        EscapedHasNoCrLf(s);
        NewlineStep(s);
      }
      assert Replace(Replace(b, "\\r", "\r"), "\\t", "    ") == c by {
        CrStep(s);
        TabStep(s);
      }
      assert Replace(Replace(c, "\\\"", "\""), "\\\\", "\\") == s by {
        QuoteStep(s);
        ReplaceAbsent(s, "\\\\", "\\");
      }
    }
  }

  // ---------------------------------------------------------------------------------------
  // Where the two decoders differ
  // ---------------------------------------------------------------------------------------

  /** A backslash followed by the letter n. */
  function BackslashN(): (s: string)
    ensures |s| == 2 && s[0] == Backslash && s[1] == 'n'
  {
    "\\n"
  }

  /** `s.replace(pat, rep)` leaves a text without an occurrence of `pat` unchanged. */
  lemma {:induction false} ReplaceNoOccurrence(s: string, pat: string, rep: string)
    requires pat != [] && forall i :: 0 <= i < |s| ==> !(pat <= s[i..])
    ensures Replace(s, pat, rep) == s
    decreases |s|
  {
    if s != [] {
      assert !(pat <= s) by {
        assert s[0..] == s;
      }
      forall i | 0 <= i < |s[1..]|
        ensures !(pat <= s[1..][i..])
      {
        assert s[1..][i..] == s[i + 1..];
      }
      ReplaceNoOccurrence(s[1..], pat, rep);
      ReplaceSkip(s, pat, rep);
      assert s == [s[0]] + s[1..];
    }
  }

  /** One step of `Replace` at a position where the pattern does not start. */
  lemma ReplaceSkip(s: string, pat: string, rep: string)
    requires pat != [] && s != [] && !(pat <= s)
    ensures Replace(s, pat, rep) == [s[0]] + Replace(s[1..], pat, rep)
  {
  }

  /** One step of `Replace` at a position where the pattern starts. */
  lemma ReplaceHit(s: string, pat: string, rep: string)
    requires pat != [] && pat <= s
    ensures Replace(s, pat, rep) == rep + Replace(s[|pat|..], pat, rep)
  {
  }

  /** The text `\` `n` (two characters) escapes to `\\n`. */
  lemma EscapeBackslashN()
    ensures Escape(BackslashN()) == "\\\\n"
  {
    var s := BackslashN();
    assert s[1..] == "n" && s[1..][1..] == [];
  }

  /** As written, `\\n` decodes to a backslash and a line feed. */
  lemma AsWrittenDecodesEscapedBackslashN()
    ensures DecodeAsWritten("\\\\n") == "\\\n"
  {
    var e := "\\\\n";
    assert e[1..] == "\\n" && e[2..] == "n";
    var u := UnicodeEscapes(e);
    assert u == e by {
      UnicodeEscapesWithoutU(e);
    }
    var a := Replace(u, "\\r\\n", "\n");
    assert a == e by {
      ReplaceNoOccurrence(e, "\\r\\n", "\n");
    }
    var b := Replace(a, "\\n", "\n");
    var b1 := "\\\n";
    assert b == b1 by {
      ReplaceSkip(e, "\\n", "\n");
      ReplaceHit(e[1..], "\\n", "\n");
      assert e[1..][2..] == [];
    }
    assert b1[1..] == "\n";
    var c := Replace(b, "\\r", "\r");
    assert c == b1 by {
      assert b1[0..] == b1 && b1[1] != 'r';
      ReplaceNoOccurrence(b1, "\\r", "\r");
    }
    var d := Replace(c, "\\t", "    ");
    assert d == b1 by {
      ReplaceNoOccurrence(b1, "\\t", "    ");
    }
    var f := Replace(d, "\\\"", "\"");
    assert f == b1 by {
      ReplaceNoOccurrence(b1, "\\\"", "\"");
    }
    assert Replace(f, "\\\\", "\\") == b1 by {
      ReplaceNoOccurrence(b1, "\\\\", "\\");
    }
  }

  /**
   * The text `\` `n` (two characters) escapes to `\\n`; as written, that decodes to a
   * backslash and a line feed instead of the original text.
   */
  lemma AsWrittenBreaksEscapedBackslash()
    ensures Escape(BackslashN()) == "\\\\n"
    ensures DecodeAsWritten(Escape(BackslashN())) == "\\\n"
    ensures DecodeAsWritten(Escape(BackslashN())) != BackslashN()
  {
    EscapeBackslashN();
    AsWrittenDecodesEscapedBackslashN();
    assert "\\\n"[1] != BackslashN()[1];
  }

  /** The single-pass decoder gives the original text back. */
  lemma DecodeKeepsEscapedBackslash()
    ensures Decode(Escape(BackslashN())) == BackslashN()
  {
    var s := BackslashN();
    assert !HasCrLf(s);
    DecodeEscape(s);
  }

  /** On `a\nb` both decoders produce `a`, a line feed, `b`. */
  lemma NewlineEscapeExample(s: string)
    requires s == "a\\nb"
    ensures DecodeAsWritten(s) == "a\nb"
    ensures Decode(s) == "a\nb"
  {
    assert s[1..] == "\\nb" && s[1..][2..] == "b" && s[1..][2..][1..] == [];
    assert Decode(s) == "a\nb";
    var u := UnicodeEscapes(s);
    assert u == s by {
      UnicodeEscapesWithoutU(s);
    }
    var a := Replace(u, "\\r\\n", "\n");
    assert a == s by {
      ReplaceNoOccurrence(s, "\\r\\n", "\n");
    }
    var b := Replace(a, "\\n", "\n");
    var t := "a\nb";
    assert b == t by {
      ReplaceSkip(s, "\\n", "\n");
      ReplaceHit(s[1..], "\\n", "\n");
      assert s[1..][2..] == "b";
      ReplaceSkip("b", "\\n", "\n");
      assert "b"[1..] == [];
    }
    assert Backslash !in t by {
      assert t[0] != Backslash && t[1] != Backslash && t[2] != Backslash;
    }
    ReplaceAbsent(t, "\\r", "\r");
    ReplaceAbsent(t, "\\t", "    ");
    ReplaceAbsent(t, "\\\"", "\"");
    ReplaceAbsent(t, "\\\\", "\\");
  }
}
