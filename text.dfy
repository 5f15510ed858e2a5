/**
 * The pieces of Go's standard library that the provider's parsing and
 * formatting rely on: `unicode.IsSpace`, `strings.Fields`,
 * `strings.TrimSpace`, `strconv.Itoa` and digit strings in a small base.
 */
module Text {

  /** `unicode.IsSpace`: the Unicode White_Space characters. */
  predicate IsSpace(c: char) {
    || ('\t' <= c <= '\r')
    || c == ' ' || c == '\U{85}' || c == '\U{A0}' || c == '\U{1680}'
    || ('\U{2000}' <= c <= '\U{200A}')
    || c == '\U{2028}' || c == '\U{2029}' || c == '\U{202F}' || c == '\U{205F}' || c == '\U{3000}'
  }

  predicate NoSpace(s: string) {
    forall i :: 0 <= i < |s| ==> !IsSpace(s[i])
  }

  /** A field as `strings.Fields` returns it: non-empty and free of white space. */
  predicate IsWord(w: string) {
    w != [] && NoSpace(w)
  }

  /** Length of the longest prefix of `s` that holds no white space. */
  function WordLen(s: string): (n: nat)
    ensures n <= |s|
    ensures NoSpace(s[..n])
    ensures n < |s| ==> IsSpace(s[n])
  {
    if s == [] || IsSpace(s[0]) then 0 else 1 + WordLen(s[1..])
  }

  /** `strings.Fields`: the maximal runs of non-white-space characters, in order. */
  function Fields(s: string): (r: seq<string>)
    ensures forall i :: 0 <= i < |r| ==> IsWord(r[i])
    decreases |s|
  {
    if s == [] then []
    else if IsSpace(s[0]) then Fields(s[1..])
    else
      var n := WordLen(s);
      [s[..n]] + Fields(s[n..])
  }

  /** Every character is white space (the empty string included). */
  predicate AllSpace(g: string) {
    forall i :: 0 <= i < |g| ==> IsSpace(g[i])
  }

  predicate AllWords(ws: seq<string>) {
    forall i :: 0 <= i < |ws| ==> IsWord(ws[i])
  }

  /**
   * Field-separated text: `gaps[0] + ws[0] + gaps[1] + ... + ws[n-1] + gaps[n]`,
   * so white space before, between and after the words.
   */
  function Layout(ws: seq<string>, gaps: seq<string>): string
    requires |gaps| == |ws| + 1
  {
    if ws == [] then gaps[0] else gaps[0] + (ws[0] + Layout(ws[1..], gaps[1..]))
  }

  /** The gaps of a layout: all white space, and non-empty between two words. */
  predicate IsGaps(ws: seq<string>, gaps: seq<string>) {
    && |gaps| == |ws| + 1
    && (forall i :: 0 <= i < |gaps| ==> AllSpace(gaps[i]))
    && (forall i :: 0 < i < |ws| ==> gaps[i] != [])
  }

  lemma {:induction false} FieldsSkipSpace(g: string, t: string)
    requires AllSpace(g)
    ensures Fields(g + t) == Fields(t)
    decreases |g|
  {
    if g != [] {
      assert (g + t)[0] == g[0];
      assert (g + t)[1..] == g[1..] + t;
      FieldsSkipSpace(g[1..], t);
    } else {
      assert g + t == t;
    }
  }

  lemma {:induction false} WordLenBefore(w: string, rest: string)
    requires IsWord(w) && (rest == [] || IsSpace(rest[0]))
    ensures WordLen(w + rest) == |w|
    decreases |w|
  {
    var s := w + rest;
    assert s[0] == w[0];
    if |w| > 1 {
      assert s[1..] == w[1..] + rest;
      WordLenBefore(w[1..], rest);
    } else {
      assert s[1..] == rest;
    }
  }

  /** `strings.Fields` gives back the words of any layout, whatever white space separates them. */
  lemma {:induction false} FieldsOfLayout(ws: seq<string>, gaps: seq<string>)
    requires AllWords(ws) && IsGaps(ws, gaps)
    ensures Fields(Layout(ws, gaps)) == ws
  {
    if ws == [] {
      FieldsSkipSpace(gaps[0], "");
      assert gaps[0] + "" == gaps[0];
    } else {
      var w, rest := ws[0], Layout(ws[1..], gaps[1..]);
      assert Layout(ws, gaps) == gaps[0] + (w + rest);
      FieldsSkipSpace(gaps[0], w + rest);
      if |ws| == 1 {
        assert rest == gaps[1];
      } else {
        assert gaps[1] != [];
        assert rest == gaps[1] + (ws[1] + Layout(ws[2..], gaps[2..]));
        assert rest[0] == gaps[1][0];
      }
      WordLenBefore(w, rest);
      var s := w + rest;
      assert s[..|w|] == w && s[|w|..] == rest && s[0] == w[0];
      FieldsOfLayout(ws[1..], gaps[1..]);
    }
  }

  /** The white space around and between the fields of `s`. */
  function GapsOf(s: string): (r: seq<string>)
    ensures |r| == |Fields(s)| + 1
    ensures s != [] && IsSpace(s[0]) ==> r[0] != []
    decreases |s|
  {
    if s == [] then [""]
    else if IsSpace(s[0]) then
      var g := GapsOf(s[1..]);
      [[s[0]] + g[0]] + g[1..]
    else
      [""] + GapsOf(s[WordLen(s)..])
  }

  /** Every string is the layout of its fields: `Fields` splits at maximal runs of white space and loses nothing else. */
  lemma {:induction false} LayoutOfFields(s: string)
    ensures IsLayoutOfFields(s)
    decreases |s|
  {
    if s == [] {
    } else if IsSpace(s[0]) {
      LayoutOfFields(s[1..]);
      LayoutOfFieldsSpace(s);
    } else {
      LayoutOfFields(s[WordLen(s)..]);
      LayoutOfFieldsWord(s);
    }
  }

  predicate IsLayoutOfFields(s: string) {
    IsGaps(Fields(s), GapsOf(s)) && Layout(Fields(s), GapsOf(s)) == s
  }

  /** The step of `LayoutOfFields` for a leading white-space character. */
  lemma LayoutOfFieldsSpace(s: string)
    requires s != [] && IsSpace(s[0]) && IsLayoutOfFields(s[1..])
    ensures IsLayoutOfFields(s)
  {
    var t := s[1..];
    var g := GapsOf(t);
    assert Fields(s) == Fields(t);
    assert GapsOf(s) == [[s[0]] + g[0]] + g[1..];
    GapsWiden(s[0], Fields(t), g);
    LayoutWiderGap(s[0], Fields(t), g);
    assert [s[0]] + t == s;
  }

  /** The step of `LayoutOfFields` for a leading word. */
  lemma LayoutOfFieldsWord(s: string)
    requires s != [] && !IsSpace(s[0]) && IsLayoutOfFields(s[WordLen(s)..])
    ensures IsLayoutOfFields(s)
  {
    var n := WordLen(s);
    var t := s[n..];
    assert Fields(s) == [s[..n]] + Fields(t);
    assert GapsOf(s) == [""] + GapsOf(t);
    if Fields(t) != [] {
      assert t != [] && IsSpace(t[0]);
    }
    GapsWordFirst(s[..n], Fields(t), GapsOf(t));
    LayoutWordFirst(s[..n], Fields(t), GapsOf(t));
    assert s[..n] + t == s;
  }

  /** Widening the first gap by a white-space character keeps the gaps valid. */
  lemma GapsWiden(c: char, ws: seq<string>, gaps: seq<string>)
    requires IsSpace(c) && IsGaps(ws, gaps)
    ensures IsGaps(ws, [[c] + gaps[0]] + gaps[1..])
  {
    var r := [[c] + gaps[0]] + gaps[1..];
    assert AllSpace(r[0]);
    assert forall i :: 0 < i < |r| ==> r[i] == gaps[i];
  }

  /** A word put in front with an empty first gap keeps the gaps valid, if the old first gap was not empty. */
  lemma GapsWordFirst(w: string, ws: seq<string>, gaps: seq<string>)
    requires IsGaps(ws, gaps) && (ws != [] ==> gaps[0] != [])
    ensures IsGaps([w] + ws, [""] + gaps)
  {
    var r := [""] + gaps;
    assert forall i :: 0 < i < |r| ==> r[i] == gaps[i - 1];
  }

  /** One more white-space character before a layout widens its first gap. */
  lemma LayoutWiderGap(c: char, ws: seq<string>, gaps: seq<string>)
    requires |gaps| == |ws| + 1
    ensures Layout(ws, [[c] + gaps[0]] + gaps[1..]) == [c] + Layout(ws, gaps)
  {
    var r := [[c] + gaps[0]] + gaps[1..];
    assert r[0] == [c] + gaps[0];
    if ws != [] {
      assert r[1..] == gaps[1..];
      ConsAssoc(c, gaps[0], ws[0] + Layout(ws[1..], gaps[1..]));
    }
  }

  /** Prepending a character commutes with concatenation. */
  lemma ConsAssoc(c: char, g: string, t: string)
    ensures ([c] + g) + t == [c] + (g + t)
  {
  }

  /** A word at the front of a layout with an empty first gap. */
  lemma LayoutWordFirst(w: string, ws: seq<string>, gaps: seq<string>)
    requires |gaps| == |ws| + 1
    ensures Layout([w] + ws, [""] + gaps) == w + Layout(ws, gaps)
  {
    var ws', gaps' := [w] + ws, [""] + gaps;
    assert ws'[0] == w && ws'[1..] == ws;
    assert gaps'[0] == "" && gaps'[1..] == gaps;
    assert Layout(ws', gaps') == "" + w + Layout(ws, gaps);
    assert "" + w == w;
  }

  function TrimLeft(s: string): (r: string)
    ensures |r| <= |s| && r == s[|s| - |r|..]
    ensures forall i :: 0 <= i < |s| - |r| ==> IsSpace(s[i])
    ensures r == [] || !IsSpace(r[0])
  {
    if s != [] && IsSpace(s[0]) then TrimLeft(s[1..]) else s
  }

  function TrimRight(s: string): (r: string)
    ensures |r| <= |s| && r == s[..|r|]
    ensures forall i :: |r| <= i < |s| ==> IsSpace(s[i])
    ensures r == [] || !IsSpace(r[|r| - 1])
  {
    if s != [] && IsSpace(s[|s| - 1]) then TrimRight(s[..|s| - 1]) else s
  }

  /** No white space at either end. */
  predicate Trimmed(s: string) {
    s == [] || (!IsSpace(s[0]) && !IsSpace(s[|s| - 1]))
  }

  /**
   * `strings.TrimSpace`: `s` without its leading and trailing white space.
   * The result is the slice of `s` between two runs of white space.
   */
  function TrimSpace(s: string): (r: string)
    ensures Trimmed(r)
    ensures exists i, j ::
              && 0 <= i <= j <= |s| && r == s[i..j]
              && (forall k :: 0 <= k < i ==> IsSpace(s[k]))
              && (forall k :: j <= k < |s| ==> IsSpace(s[k]))
  {
    var l := TrimLeft(s);
    var r := TrimRight(l);
    var i := |s| - |l|;
    assert r == s[i..i + |r|];
    r
  }

  /** Trimming a word followed by a line break (what a remote command prints) gives back the word. */
  lemma {:induction false} TrimSpaceLine(w: string)
    requires IsWord(w)
    ensures TrimSpace(w + "\n") == w
  {
    var s := w + "\n";
    assert TrimLeft(s) == s;
    assert s[..|s| - 1] == w;
    assert TrimRight(s) == TrimRight(w);
  }

  /** Index of the last `c` in `s`, or -1 when there is none. */
  function LastIndexOf(s: string, c: char): (r: int)
    ensures -1 <= r < |s|
    ensures r >= 0 ==> s[r] == c
    ensures forall i :: r < i < |s| ==> s[i] != c
  {
    if s == [] then -1
    else if s[|s| - 1] == c then |s| - 1
    else LastIndexOf(s[..|s| - 1], c)
  }

  /** The last `c` in `a + [c] + b` is the one after `a` when `b` holds none. */
  lemma {:induction false} LastIndexAfter(a: string, c: char, b: string)
    requires forall i :: 0 <= i < |b| ==> b[i] != c
    ensures LastIndexOf(a + [c] + b, c) == |a|
  {
    var s := a + [c] + b;
    if b != [] {
      assert s[..|s| - 1] == a + [c] + b[..|b| - 1];
      LastIndexAfter(a, c, b[..|b| - 1]);
    }
  }

  // ----- digit strings -----

  predicate IsDigitBelow(c: char, base: nat) {
    '0' <= c && (c as int) < ('0' as int) + base
  }

  predicate AllDigitsBelow(s: string, base: nat) {
    forall i :: 0 <= i < |s| ==> IsDigitBelow(s[i], base)
  }

  function DigitChar(d: nat): (c: char)
    requires d < 10
    ensures IsDigitBelow(c, d + 1) && !IsDigitBelow(c, d)
  {
    (('0' as int) + d) as char
  }

  function DigitValue(c: char): nat
    requires '0' <= c
  {
    (c as int) - ('0' as int)
  }

  /** The value of a digit string in `base`, read most significant digit first. */
  function DigitsValue(s: string, base: nat): nat
    requires AllDigitsBelow(s, base)
  {
    if s == [] then 0
    else base * DigitsValue(s[..|s| - 1], base) + DigitValue(s[|s| - 1])
  }

  /** The shortest digit string of `n` in `base` (no leading zero, "0" for zero). */
  function ToDigits(n: nat, base: nat): (r: string)
    requires 2 <= base <= 10
    ensures r != [] && AllDigitsBelow(r, base)
    ensures r[0] != '0' || n == 0
    decreases n
  {
    if n < base then [DigitChar(n)]
    else
      DivisionShrinks(n, base);
      ToDigits(n / base, base) + [DigitChar(n % base)]
  }

  lemma DivisionShrinks(n: nat, base: nat)
    requires 2 <= base <= n
    ensures 1 <= n / base < n && n % base < base
    ensures n == base * (n / base) + n % base
  {
  }

  lemma {:induction false} ToDigitsValue(n: nat, base: nat)
    requires 2 <= base <= 10
    ensures DigitsValue(ToDigits(n, base), base) == n
  {
    var r := ToDigits(n, base);
    if n >= base {
      var q, d := n / base, n % base;
      DivisionShrinks(n, base);
      var front := ToDigits(q, base);
      assert r == front + [DigitChar(d)];
      assert r[..|r| - 1] == front;
      ToDigitsValue(q, base);
      assert DigitValue(r[|r| - 1]) == d;
      assert DigitsValue(r, base) == base * DigitsValue(front, base) + d;
    }
  }

  /** A leading zero does not change a digit string's value. */
  lemma {:induction false} LeadingZeroValue(s: string, base: nat)
    requires 1 <= base && AllDigitsBelow(s, base)
    ensures AllDigitsBelow("0" + s, base)
    ensures DigitsValue("0" + s, base) == DigitsValue(s, base)
  {
    if s != [] {
      var t := "0" + s;
      assert t[..|t| - 1] == "0" + s[..|s| - 1];
      LeadingZeroValue(s[..|s| - 1], base);
    }
  }

  lemma {:induction false} LeadingZerosValue(z: nat, s: string, base: nat)
    requires 1 <= base && AllDigitsBelow(s, base)
    ensures AllDigitsBelow(seq(z, _ => '0') + s, base)
    ensures DigitsValue(seq(z, _ => '0') + s, base) == DigitsValue(s, base)
  {
    if z > 0 {
      var zs := seq(z, _ => '0');
      assert zs + s == "0" + (seq(z - 1, _ => '0') + s);
      LeadingZerosValue(z - 1, s, base);
      LeadingZeroValue(seq(z - 1, _ => '0') + s, base);
    } else {
      assert seq(z, _ => '0') + s == s;
    }
  }

  /** `strconv.Itoa`: the decimal rendering of an integer, with "-" for a negative one. */
  function Itoa(n: int): (r: string)
    ensures r != [] && (forall i :: 0 <= i < |r| ==> r[i] != ':')
  {
    if n < 0 then "-" + ToDigits(-n, 10) else ToDigits(n, 10)
  }

  /** Decimal renderings of different integers differ. */
  lemma ItoaInjective(a: int, b: int)
    requires Itoa(a) == Itoa(b)
    ensures a == b
  {
    if a < 0 && b < 0 {
      assert Itoa(a)[1..] == ToDigits(-a, 10);
      assert Itoa(b)[1..] == ToDigits(-b, 10);
      ToDigitsValue(-a, 10);
      ToDigitsValue(-b, 10);
    } else if a >= 0 && b >= 0 {
      ToDigitsValue(a, 10);
      ToDigitsValue(b, 10);
    }
  }
}
