/**
 * The two colour-string shapes the viewer's recolouring loop reads back from a
 * colourmap: `#rrggbb` (each pair through JavaScript's `parseInt(_, 16)`) and
 * the first match of the regular expression `rgb\((\d+),\s*(\d+),\s*(\d+)\)`.
 */
module ColourString {
  import opened Wrappers
  import opened Decimal

  /** A JavaScript number as the loop can see it: a parsed integer or NaN. */
  datatype Channel = NaN | Num(n: int)

  /** White space and line terminators of ECMAScript (the class `\s`, and what parseInt skips). */
  predicate IsJsSpace(c: char)
  {
    c == '\t' || c == '\n' || c == '\U{B}' || c == '\U{C}' || c == '\r' || c == ' ' ||
    c == '\U{A0}' || c == '\U{1680}' || ('\U{2000}' <= c <= '\U{200A}') ||
    c == '\U{2028}' || c == '\U{2029}' || c == '\U{202F}' || c == '\U{205F}' ||
    c == '\U{3000}' || c == '\U{FEFF}'
  }

  /** What is left after the longest prefix of white space: what `parseInt` skips, and a regex `\s*`. */
  function TrimStart(s: string): (r: string)
    ensures |r| <= |s|
    ensures r == [] || !IsJsSpace(r[0])
    decreases |s|
  {
    if s != [] && IsJsSpace(s[0]) then TrimStart(s[1..]) else s
  }

  /** Skipping white space only ever drops a prefix. */
  lemma {:induction false} TrimStartIsSuffix(s: string)
    ensures TrimStart(s) == s[|s| - |TrimStart(s)|..]
    decreases |s|
  {
    if s != [] && IsJsSpace(s[0]) {
      TrimStartIsSuffix(s[1..]);
      assert s[1..][|s[1..]| - |TrimStart(s)|..] == s[|s| - |TrimStart(s)|..];
    }
  }

  predicate IsHexDigit(c: char) { IsDigit(c) || ('a' <= c <= 'f') || ('A' <= c <= 'F') }

  function HexValue(c: char): (d: nat)
    requires IsHexDigit(c)
    ensures d < 16
  {
    if IsDigit(c) then DigitValue(c)
    else if 'a' <= c <= 'f' then (c as int) - ('a' as int) + 10
    else (c as int) - ('A' as int) + 10
  }

  predicate AllHex(s: string) { forall i :: 0 <= i < |s| ==> IsHexDigit(s[i]) }

  /** Length of the longest prefix of hexadecimal digits. */
  function HexRun(s: string): (k: nat)
    ensures k <= |s| && AllHex(s[..k])
    ensures k == |s| || !IsHexDigit(s[k])
    decreases |s|
  {
    if s != [] && IsHexDigit(s[0]) then
      var k := 1 + HexRun(s[1..]);
      assert forall i :: 1 <= i < k ==> s[..k][i] == s[1..][..k - 1][i - 1];
      k
    else 0
  }

  /** The value of a run of hexadecimal digits, most significant first. */
  function HexNumber(s: string): nat
    requires AllHex(s)
    decreases |s|
  {
    if s == [] then 0 else 16 * HexNumber(s[..|s| - 1]) + HexValue(s[|s| - 1])
  }

  /** The text after one optional sign character. */
  function DropSign(t: string): string
  {
    if t != [] && (t[0] == '-' || t[0] == '+') then t[1..] else t
  }

  /** The text after an optional `0x` / `0X` prefix. */
  function DropHexPrefix(u: string): string
  {
    if |u| >= 2 && u[0] == '0' && (u[1] == 'x' || u[1] == 'X') then u[2..] else u
  }

  /**
   * `parseInt(s, 16)`: skip leading white space, read one optional sign, drop an
   * optional `0x`/`0X` prefix, then read the longest run of hexadecimal digits;
   * no digit at all gives NaN.
   */
  function ParseIntHex(s: string): Channel
  {
    var t := TrimStart(s);
    var w := DropHexPrefix(DropSign(t));
    var k := HexRun(w);
    if k == 0 then NaN
    else
      var n := HexNumber(w[..k]);
      if t != [] && t[0] == '-' then Num(-(n as int)) else Num(n)
  }

  /** `s.slice(a, b)` for 0 <= a <= b: both ends are cut down to the length of `s`. */
  function Slice(s: string, a: nat, b: nat): (r: string)
    requires a <= b
    ensures |r| <= b - a
  {
    var hi := if b <= |s| then b else |s|;
    var lo := if a <= hi then a else hi;
    s[lo..hi]
  }

  /** The `#` branch: the text after `#` read as three two-character hexadecimal fields. */
  function ParseHexTriple(hex: string): (Channel, Channel, Channel)
  {
    (ParseIntHex(Slice(hex, 0, 2)), ParseIntHex(Slice(hex, 2, 4)), ParseIntHex(Slice(hex, 4, 6)))
  }

  // ---------------------------------------------------------------------------
  // rgb\((\d+),\s*(\d+),\s*(\d+)\)

  /** Length of the longest prefix of decimal digits (`\d+` is greedy). */
  function DigitRun(s: string): (k: nat)
    ensures k <= |s|
    ensures AllDigits(s[..k])
    ensures k == |s| || !IsDigit(s[k])
    decreases |s|
  {
    if s != [] && IsDigit(s[0]) then 1 + DigitRun(s[1..]) else 0
  }

  /**
   * One `(\d+)` group followed by the literal `close`. A digit is neither
   * white space nor `,` nor `)`, so the greedy runs never need to give back a
   * character: the match, if any, is unique.
   */
  function Group(s: string, close: char): Option<(nat, string)>
  {
    var k := DigitRun(s);
    if k == 0 || k == |s| || s[k] != close then None
    else Some((ParseDigits(s[..k]), s[k + 1..]))
  }

  /** The three groups after `rgb(`: `(\d+),\s*(\d+),\s*(\d+)\)`. */
  function MatchChannels(s: string): Option<(nat, nat, nat)>
  {
    var red := Group(s, ',');
    if red.None? then None
    else
      var green := Group(TrimStart(red.value.1), ',');
      if green.None? then None
      else
        var blue := Group(TrimStart(green.value.1), ')');
        if blue.None? then None
        else Some((red.value.0, green.value.0, blue.value.0))
  }

  /** The pattern matched at the very start of `s`. */
  function MatchRgbHere(s: string): Option<(nat, nat, nat)>
  {
    if |s| < 4 || s[..4] != "rgb(" then None else MatchChannels(s[4..])
  }

  /** `s.match(...)`: the leftmost position at which the pattern matches. */
  function SearchRgb(s: string): Option<(nat, nat, nat)>
    decreases |s|
  {
    if s == [] then None
    else if MatchRgbHere(s).Some? then MatchRgbHere(s)
    else SearchRgb(s[1..])
  }

  // ---------------------------------------------------------------------------
  // Lemmas

  /** A run of digits stops at the first non-digit. */
  lemma {:induction false} DigitRunOf(d: string, rest: string)
    requires AllDigits(d)
    requires rest == [] || !IsDigit(rest[0])
    ensures DigitRun(d + rest) == |d|
    decreases |d|
  {
    if d != [] {
      assert (d + rest)[1..] == d[1..] + rest;
      DigitRunOf(d[1..], rest);
    }
  }

  /** A digit run followed by the expected literal is one group; what follows is left over. */
  lemma GroupOf(d: string, close: char, rest: string)
    requires |d| >= 1 && AllDigits(d) && !IsDigit(close)
    ensures Group(d + [close] + rest, close) == Some((ParseDigits(d), rest))
  {
    var s := d + [close] + rest;
    assert s == d + ([close] + rest);
    DigitRunOf(d, [close] + rest);
    assert s[..|d|] == d;
    assert s[|d| + 1..] == rest;
  }

  /** The groups compose: three successful groups are a match of all three. */
  lemma MatchChannelsOfGroups(s: string, r: nat, g: nat, b: nat, rest1: string, rest2: string, rest3: string)
    requires Group(s, ',') == Some((r, rest1))
    requires Group(TrimStart(rest1), ',') == Some((g, rest2))
    requires Group(TrimStart(rest2), ')') == Some((b, rest3))
    ensures MatchChannels(s) == Some((r, g, b))
  {
  }

  /** White space skipping stops at once before a digit. */
  lemma TrimStartAtDigit(s: string)
    requires |s| >= 1 && IsDigit(s[0])
    ensures TrimStart(s) == s
  {
  }

  /** Three digit runs, separated by commas and closed by `)`, are the three groups. */
  lemma MatchChannelsOfRuns(dr: string, dg: string, db: string)
    requires |dr| >= 1 && AllDigits(dr) && |dg| >= 1 && AllDigits(dg) && |db| >= 1 && AllDigits(db)
    ensures MatchChannels(dr + [','] + (dg + [','] + (db + [')'])))
         == Some((ParseDigits(dr), ParseDigits(dg), ParseDigits(db)))
  {
    var rest2 := db + [')'];
    var rest1 := dg + [','] + rest2;
    GroupOf(dr, ',', rest1);
    TrimStartAtDigit(rest1);
    GroupOf(dg, ',', rest2);
    TrimStartAtDigit(rest2);
    assert rest2 == db + [')'] + [];
    GroupOf(db, ')', []);
    MatchChannelsOfGroups(dr + [','] + rest1, ParseDigits(dr), ParseDigits(dg), ParseDigits(db), rest1, rest2, []);
  }

  /** The text `rgb(` + three comma-separated digit runs + `)` matches at its start. */
  lemma MatchRgbOfRuns(dr: string, dg: string, db: string)
    requires |dr| >= 1 && AllDigits(dr) && |dg| >= 1 && AllDigits(dg) && |db| >= 1 && AllDigits(db)
    ensures MatchRgbHere("rgb(" + dr + "," + dg + "," + db + ")")
         == Some((ParseDigits(dr), ParseDigits(dg), ParseDigits(db)))
  {
    var s := "rgb(" + dr + "," + dg + "," + db + ")";
    var tail := dr + [','] + (dg + [','] + (db + [')']));
    assert s == "rgb(" + tail;
    assert s[..4] == "rgb(" && s[4..] == tail;
    MatchChannelsOfRuns(dr, dg, db);
  }

  /** Every character is ECMAScript white space: a run `\s*` can consume. */
  predicate AllJsSpace(w: string)
  {
    forall i :: 0 <= i < |w| ==> IsJsSpace(w[i])
  }

  /** White space skipping consumes a whole run of white space and stops at the digit after it. */
  lemma {:induction false} TrimSpacesBeforeDigit(w: string, t: string)
    requires AllJsSpace(w) && |t| >= 1 && IsDigit(t[0])
    ensures TrimStart(w + t) == t
    decreases |w|
  {
    var s := w + t;
    if w == [] {
      assert s == t;
      TrimStartAtDigit(t);
    } else {
      assert s[0] == w[0] && IsJsSpace(s[0]);
      assert s[1..] == w[1..] + t;
      JsSpaceTail(w);
      TrimSpacesBeforeDigit(w[1..], t);
      assert TrimStart(s) == TrimStart(s[1..]);
    }
  }

  lemma JsSpaceTail(w: string)
    requires w != [] && AllJsSpace(w)
    ensures AllJsSpace(w[1..])
  {
    forall i | 0 <= i < |w[1..]| ensures IsJsSpace(w[1..][i]) {
      assert w[1..][i] == w[i + 1];
    }
  }

  /**
   * The text `rgb(` + `dr` + `,` + `w1` + `dg` + `,` + `w2` + `db` + `)`, which
   * d3 and `interpolateRgb` write as `rgb(r, g, b)`.
   */
  function RgbText(dr: string, w1: string, dg: string, w2: string, db: string): string
  {
    "rgb(" + (dr + ([','] + (w1 + (dg + ([','] + (w2 + (db + [')'])))))))
  }

  /** A digit run and the expected literal after white space are one group, once the space is skipped. */
  lemma SpacedGroupOf(w: string, d: string, close: char, rest: string)
    requires AllJsSpace(w) && |d| >= 1 && AllDigits(d) && !IsDigit(close)
    ensures Group(TrimStart(w + (d + ([close] + rest))), close) == Some((ParseDigits(d), rest))
  {
    TrimSpacesBeforeDigit(w, d + ([close] + rest));
    assert d + ([close] + rest) == d + [close] + rest;
    GroupOf(d, close, rest);
  }

  /** Three digit runs, with white space after each comma, are the three groups. */
  lemma MatchChannelsOfSpacedRuns(dr: string, w1: string, dg: string, w2: string, db: string)
    requires |dr| >= 1 && AllDigits(dr) && |dg| >= 1 && AllDigits(dg) && |db| >= 1 && AllDigits(db)
    requires AllJsSpace(w1) && AllJsSpace(w2)
    ensures MatchChannels(dr + ([','] + (w1 + (dg + ([','] + (w2 + (db + [')'])))))))
         == Some((ParseDigits(dr), ParseDigits(dg), ParseDigits(db)))
  {
    var rest2 := w2 + (db + ([')'] + []));
    assert [')'] + [] == [')'];
    var rest1 := w1 + (dg + ([','] + rest2));
    var s := dr + ([','] + rest1);
    assert s == dr + [','] + rest1;
    GroupOf(dr, ',', rest1);
    SpacedGroupOf(w1, dg, ',', rest2);
    SpacedGroupOf(w2, db, ')', []);
    MatchChannelsOfGroups(s, ParseDigits(dr), ParseDigits(dg), ParseDigits(db), rest1, rest2, []);
  }

  /** The `rgb(r, g, b)` form with decimal channels and any white space after the commas matches at its start. */
  lemma MatchRgbOfSpacedRuns(dr: string, w1: string, dg: string, w2: string, db: string)
    requires |dr| >= 1 && AllDigits(dr) && |dg| >= 1 && AllDigits(dg) && |db| >= 1 && AllDigits(db)
    requires AllJsSpace(w1) && AllJsSpace(w2)
    ensures MatchRgbHere(RgbText(dr, w1, dg, w2, db)) == Some((ParseDigits(dr), ParseDigits(dg), ParseDigits(db)))
  {
    var s := RgbText(dr, w1, dg, w2, db);
    var tail := dr + ([','] + (w1 + (dg + ([','] + (w2 + (db + [')']))))));
    assert s[..4] == "rgb(" && s[4..] == tail;
    MatchChannelsOfSpacedRuns(dr, w1, dg, w2, db);
  }

  /**
   * `rgb(r, g, b)` as d3 writes it, or with any other white space after the
   * commas, is found by the search and gives back the channels.
   */
  lemma MatchRgbOfSpacedDigits(r: nat, w1: string, g: nat, w2: string, b: nat)
    requires AllJsSpace(w1) && AllJsSpace(w2)
    ensures SearchRgb(RgbText(Digits(r), w1, Digits(g), w2, Digits(b))) == Some((r, g, b))
  {
    DigitsRoundTrip(r);
    DigitsRoundTrip(g);
    DigitsRoundTrip(b);
    MatchRgbOfSpacedRuns(Digits(r), w1, Digits(g), w2, Digits(b));
  }

  /** `rgb(r,g,b)` with decimal channels is found by the search and gives back the channels. */
  lemma MatchRgbOfDigits(r: nat, g: nat, b: nat)
    ensures SearchRgb("rgb(" + Digits(r) + "," + Digits(g) + "," + Digits(b) + ")") == Some((r, g, b))
  {
    DigitsRoundTrip(r);
    DigitsRoundTrip(g);
    DigitsRoundTrip(b);
    MatchRgbOfRuns(Digits(r), Digits(g), Digits(b));
  }

  /** No letter `r`: the pattern cannot start anywhere. */
  predicate NoR(s: string)
  {
    forall i :: 0 <= i < |s| ==> s[i] != 'r'
  }

  lemma NoRConcat(a: string, b: string)
    requires NoR(a) && NoR(b)
    ensures NoR(a + b)
  {
    forall i | 0 <= i < |a + b| ensures (a + b)[i] != 'r' {
      if i >= |a| {
        assert (a + b)[i] == b[i - |a|];
      }
    }
  }

  /** `rgb(` followed by a minus sign, and no `r` after the first: no match anywhere. */
  lemma SearchRgbAtMinus(s: string)
    requires |s| >= 5 && s[..4] == "rgb(" && s[4] == '-' && NoR(s[1..])
    ensures SearchRgb(s) == None
  {
    assert DigitRun(s[4..]) == 0;
    assert MatchRgbHere(s) == None;
    SearchRgbNoR(s[1..]);
  }

  lemma {:induction false} SearchRgbNoR(s: string)
    requires NoR(s)
    ensures SearchRgb(s) == None
    decreases |s|
  {
    if s != [] {
      if |s| >= 4 {
        assert s[..4][0] == s[0];
      }
      SearchRgbNoR(s[1..]);
    }
  }

  /** Lower-case hexadecimal digit of a value below 16. */
  function HexChar(d: nat): (c: char)
    requires d < 16
    ensures IsHexDigit(c) && HexValue(c) == d
  {
    if d < 10 then DigitChar(d) else ('a' as int + d - 10) as char
  }

  /** Two lower-case hexadecimal digits of a byte value. */
  function HexByte(v: nat): (s: string)
    requires v < 256
    ensures |s| == 2 && IsHexDigit(s[0]) && IsHexDigit(s[1])
    ensures 16 * HexValue(s[0]) + HexValue(s[1]) == v
  {
    [HexChar(v / 16), HexChar(v % 16)]
  }

  /** The `#rrggbb` text of a colour, the form a colour interpolator writes. */
  function HexColour(r: nat, g: nat, b: nat): (s: string)
    requires r < 256 && g < 256 && b < 256
    ensures |s| == 7 && s[0] == '#'
  {
    "#" + HexByte(r) + HexByte(g) + HexByte(b)
  }

  /** Two hexadecimal digits are read as one field with a value in 0..255. */
  lemma ParseHexPair(s: string)
    requires |s| == 2 && IsHexDigit(s[0]) && IsHexDigit(s[1])
    ensures ParseIntHex(s) == Num(16 * HexValue(s[0]) + HexValue(s[1]))
    ensures 0 <= 16 * HexValue(s[0]) + HexValue(s[1]) <= 255
  {
    assert TrimStart(s) == s by { assert !IsJsSpace(s[0]); }
    assert DropHexPrefix(DropSign(s)) == s by {
      assert s[0] != '-' && s[0] != '+' && s[1] != 'x' && s[1] != 'X';
    }
    assert HexRun(s) == 2 by {
      assert HexRun(s[1..]) == 1 + HexRun(s[1..][1..]);
    }
    assert s[..2] == s;
    assert HexNumber(s) == 16 * HexNumber(s[..1]) + HexValue(s[1]);
    assert HexNumber(s[..1]) == 16 * HexNumber(s[..1][..0]) + HexValue(s[0]);
  }

  /** A well-formed `#rrggbb` text is read back as its three bytes. */
  lemma ParseHexColour(r: nat, g: nat, b: nat)
    requires r < 256 && g < 256 && b < 256
    ensures ParseHexTriple(HexColour(r, g, b)[1..]) == (Num(r), Num(g), Num(b))
  {
    var hex := HexColour(r, g, b)[1..];
    assert hex == HexByte(r) + HexByte(g) + HexByte(b);
    assert Slice(hex, 0, 2) == HexByte(r);
    assert Slice(hex, 2, 4) == HexByte(g);
    assert Slice(hex, 4, 6) == HexByte(b);
    ParseHexByte(r);
    ParseHexByte(g);
    ParseHexByte(b);
  }

  /** A byte's two hexadecimal digits are read back as the byte. */
  lemma ParseHexByte(v: nat)
    requires v < 256
    ensures ParseIntHex(HexByte(v)) == Num(v)
  {
    ParseHexPair(HexByte(v));
  }
}
