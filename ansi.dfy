/** The ANSI encoder of `monospace/core/formatting/ansi.py`: CSI escape
    sequences, hexadecimal colour parsing and the mapping of directives to
    escape codes. */
module Ansi {
  import opened Results
  import opened Formatting

  const ESC: char := '\U{1B}'

  // ---------------------------------------------------------------------
  // Decimal rendering of integers (Python's str(int))

  function DigitChar(d: nat): char
    requires d < 10
  {
    "0123456789"[d]
  }

  function NatToDecimal(n: nat): (s: string)
    ensures |s| >= 1 && forall i :: 0 <= i < |s| ==> '0' <= s[i] <= '9'
  {
    if n < 10 then [DigitChar(n)] else NatToDecimal(n / 10) + [DigitChar(n % 10)]
  }

  function IntToDecimal(i: int): string
  {
    if i < 0 then "-" + NatToDecimal(-i) else NatToDecimal(i)
  }

  /** `sep.join(parts)`. */
  function Join(sep: string, parts: seq<string>): string
  {
    if |parts| == 0 then ""
    else if |parts| == 1 then parts[0]
    else parts[0] + sep + Join(sep, parts[1..])
  }

  /** `csi(params, end)`: ESC, '[', the decimal parameters joined by ';', then `end`. */
  function Csi(params: seq<int>, end: string): string
  {
    [ESC, '['] + Join(";", Decimals(params)) + end
  }

  /** `map(str, params)`. */
  function Decimals(params: seq<int>): (ds: seq<string>)
    ensures |ds| == |params|
  {
    seq(|params|, i requires 0 <= i < |params| => IntToDecimal(params[i]))
  }

  // ---------------------------------------------------------------------
  // Reading the parameters of a CSI sequence back: the partner of Csi

  function DecimalValue(s: string): nat
    requires forall i :: 0 <= i < |s| ==> '0' <= s[i] <= '9'
  {
    if s == [] then 0 else 10 * DecimalValue(s[..|s| - 1]) + (s[|s| - 1] as int - '0' as int)
  }

  predicate IsDecimal(s: string)
  {
    |s| >= 1 && forall i :: 0 <= i < |s| ==> '0' <= s[i] <= '9'
  }

  function ParseInt(s: string): Option<int>
  {
    if IsDecimal(s) then Some(DecimalValue(s))
    else if |s| >= 2 && s[0] == '-' && IsDecimal(s[1..]) then Some(0 - DecimalValue(s[1..]))
    else None
  }

  /** `s.split(";")`. */
  function Split(s: string): (r: seq<string>)
    ensures |r| >= 1
  {
    if s == "" then [""]
    else if s[0] == ';' then [""] + Split(s[1..])
    else var rest := Split(s[1..]); [[s[0]] + rest[0]] + rest[1..]
  }

  function ParseAll(parts: seq<string>): Option<seq<int>>
  {
    if parts == [] then Some([])
    else match (ParseInt(parts[0]), ParseAll(parts[1..]))
      case (Some(v), Some(vs)) => Some([v] + vs)
      case _ => None
  }

  /** The integers of a parameter string; the empty string holds none. */
  function ParseParams(s: string): Option<seq<int>>
  {
    if s == "" then Some([]) else ParseAll(Split(s))
  }

  lemma {:induction false} DecimalRoundTrip(n: nat)
    ensures DecimalValue(NatToDecimal(n)) == n
  {
    if n >= 10 {
      DecimalRoundTrip(n / 10);
      var s := NatToDecimal(n);
      assert s[..|s| - 1] == NatToDecimal(n / 10);
    }
  }

  lemma IntRoundTrip(i: int)
    ensures ParseInt(IntToDecimal(i)) == Some(i)
  {
    if i < 0 {
      NegativeRoundTrip(i);
    } else {
      DecimalRoundTrip(i);
    }
  }

  lemma NegativeRoundTrip(i: int)
    requires i < 0
    ensures ParseInt(IntToDecimal(i)) == Some(i)
  {
    DecimalRoundTrip(-i);
    assert IntToDecimal(i) == "-" + NatToDecimal(-i);
    ParseNegative(NatToDecimal(-i));
  }

  lemma ParseNegative(d: string)
    requires IsDecimal(d)
    ensures ParseInt("-" + d) == Some(0 - DecimalValue(d))
  {
    var s := "-" + d;
    assert s[1..] == d;
    assert !IsDecimal(s) by { assert s[0] == '-'; }
  }

  lemma {:induction false} SplitNoSemicolon(a: string)
    requires ';' !in a
    ensures Split(a) == [a]
  {
    if a != "" {
      assert ';' !in a[1..] by { assert forall j :: 0 <= j < |a[1..]| ==> a[1..][j] == a[j + 1]; }
      SplitNoSemicolon(a[1..]);
      assert [a[0]] + a[1..] == a;
    }
  }

  lemma {:induction false} SplitAfterField(a: string, rest: string)
    requires ';' !in a
    ensures Split(a + ";" + rest) == [a] + Split(rest)
  {
    if a == "" {
      assert a + ";" + rest == [';'] + rest;
      assert ([';'] + rest)[1..] == rest;
    } else {
      var s := a + ";" + rest;
      assert ';' !in a[1..] by { assert forall j :: 0 <= j < |a[1..]| ==> a[1..][j] == a[j + 1]; }
      assert s[1..] == a[1..] + ";" + rest;
      SplitAfterField(a[1..], rest);
      assert [a[0]] + a[1..] == a;
    }
  }

  lemma NoSemicolonInDecimal(i: int)
    ensures ';' !in IntToDecimal(i)
  {
    var s := IntToDecimal(i);
    if i < 0 {
      assert forall j :: 1 <= j < |s| ==> s[j] == NatToDecimal(-i)[j - 1];
    }
  }

  lemma {:induction false} SplitJoin(ps: seq<int>)
    requires |ps| >= 1
    ensures ParseAll(Split(Join(";", Decimals(ps)))) == Some(ps)
  {
    if |ps| == 1 {
      SplitJoinOne(ps[0]);
      assert [ps[0]] == ps && Decimals(ps) == [IntToDecimal(ps[0])];
    } else {
      SplitJoin(ps[1..]);
      SplitJoinCons(ps[0], ps[1..]);
      assert [ps[0]] + ps[1..] == ps;
    }
  }

  /** One more parameter in front reads back in front. */
  lemma SplitJoinCons(p: int, rest: seq<int>)
    requires |rest| >= 1 && ParseAll(Split(Join(";", Decimals(rest)))) == Some(rest)
    ensures ParseAll(Split(Join(";", Decimals([p] + rest)))) == Some([p] + rest)
  {
    var d, tail := IntToDecimal(p), Join(";", Decimals(rest));
    NoSemicolonInDecimal(p);
    IntRoundTrip(p);
    assert Decimals([p] + rest)[1..] == Decimals(rest);
    assert Join(";", Decimals([p] + rest)) == d + ";" + tail;
    SplitAfterField(d, tail);
    var fields := [d] + Split(tail);
    assert fields[0] == d && fields[1..] == Split(tail);
  }

  lemma SplitJoinOne(p: int)
    ensures ParseAll(Split(Join(";", [IntToDecimal(p)]))) == Some([p])
  {
    var d := IntToDecimal(p);
    NoSemicolonInDecimal(p);
    IntRoundTrip(p);
    SplitNoSemicolon(d);
    assert Join(";", [d]) == d;
    assert [d][1..] == [];
    assert ParseAll([d][1..]) == Some([]);
    assert [p] + [] == [p];
  }

  /** Csi's output is ESC '[' + a parameter string + `end`, and the parameter
      string reads back as exactly `params`. */
  lemma CsiRoundTrip(params: seq<int>, end: string)
    ensures var s := Csi(params, end);
            |s| >= 2 + |end| && s[0] == ESC && s[1] == '[' && s[|s| - |end|..] == end
            && ParseParams(s[2..|s| - |end|]) == Some(params)
  {
    var parts := Decimals(params);
    var body := Join(";", parts);
    var s := Csi(params, end);
    assert s == [ESC, '['] + body + end;
    assert s[2..|s| - |end|] == body;
    if |params| >= 1 {
      SplitJoin(params);
      assert body != "" by { assert |parts[0]| >= 1; JoinLength(parts); }
    }
  }

  lemma {:induction false} JoinLength(parts: seq<string>)
    requires |parts| >= 1
    ensures |Join(";", parts)| >= |parts[0]|
  {
  }

  // ---------------------------------------------------------------------
  // Hexadecimal colours: int(..., 16) on slices of at most two characters

  function HexValue(c: char): Option<nat>
  {
    if '0' <= c <= '9' then Some(c as int - '0' as int)
    else if 'a' <= c <= 'f' then Some(c as int - 'a' as int + 10)
    else if 'A' <= c <= 'F' then Some(c as int - 'A' as int + 10)
    else None
  }

  /** The value of a non-empty string of hexadecimal digits. */
  function HexDigitsValue(s: string): Option<nat>
  {
    if s == [] then None
    else if |s| == 1 then HexValue(s[0])
    else match (HexDigitsValue(s[..|s| - 1]), HexValue(s[|s| - 1]))
      case (Some(h), Some(l)) => Some(16 * h + l)
      case _ => None
  }

  /** Characters that Python's int() strips around its argument. */
  predicate IsSpace(c: char)
  {
    c in {' ', '\t', '\n', '\r', '\U{0B}', '\U{0C}', '\U{1C}', '\U{1D}', '\U{1E}', '\U{1F}',
          '\U{85}', '\U{A0}', '\U{1680}', '\U{2028}', '\U{2029}', '\U{202F}', '\U{205F}', '\U{3000}'}
    || '\U{2000}' <= c <= '\U{200A}'
  }

  function Strip(s: string): string
  {
    if s != [] && IsSpace(s[0]) then Strip(s[1..])
    else if s != [] && IsSpace(s[|s| - 1]) then Strip(s[..|s| - 1])
    else s
  }

  /** `int(s, 16)` for a string of at most two characters: surrounding white
      space is ignored, then an optional sign, then ASCII hexadecimal
      digits.  (The `0x` prefix and digit-separating underscores that int()
      also accepts need more than two characters; the non-ASCII decimal
      digits it also accepts are not modelled.) */
  function ParseHexField(s: string): Option<int>
    requires |s| <= 2
  {
    var t := Strip(s);
    if t != [] && (t[0] == '+' || t[0] == '-') then
      match HexDigitsValue(t[1..])
      case Some(v) => Some(if t[0] == '-' then 0 - v else v)
      case None => None
    else match HexDigitsValue(t)
      case Some(v) => Some(v)
      case None => None
  }

  /** Python's s[i:j] for 0 <= i <= j. */
  function Slice(s: string, i: nat, j: nat): (r: string)
    requires i <= j
    ensures |r| <= j - i
  {
    var hi := if j <= |s| then j else |s|;
    var lo := if i <= hi then i else hi;
    s[lo..hi]
  }

  /** `rgb(hexa)`: drop one leading '#', then read three two-character fields
      in base 16.  An empty string (IndexError) or a field int() rejects
      (ValueError) gives None. */
  function Rgb(hexa: string): (r: Option<(int, int, int)>)
    ensures hexa == "" ==> r == None
  {
    if hexa == "" then None
    else
      var h := if hexa[0] == '#' then hexa[1..] else hexa;
      match (ParseHexField(Slice(h, 0, 2)), ParseHexField(Slice(h, 2, 4)), ParseHexField(Slice(h, 4, 6)))
      case (Some(r), Some(g), Some(b)) => Some((r, g, b))
      case _ => None
  }

  /** Only one '#' is stripped: a second one lands in the red field, which
      int() rejects. */
  lemma RgbStripsOneHash(s: string)
    ensures Rgb("##" + s) == None
  {
    var h := ("##" + s)[1..];
    assert h[0] == '#';
    var f := Slice(h, 0, 2);
    assert f[0] == '#';
    StripKeepsFirst(f);
    var t := Strip(f);
    assert t[0] == '#' && |t| <= 2;
    if |t| == 2 {
      assert HexDigitsValue(t[..1]) == HexValue('#');
    }
    assert HexDigitsValue(t) == None;
  }

  lemma {:induction false} StripKeepsFirst(s: string)
    requires s != [] && !IsSpace(s[0])
    ensures var t := Strip(s); t != [] && t[0] == s[0] && |t| <= |s|
    decreases |s|
  {
    if |s| > 1 && IsSpace(s[|s| - 1]) {
      StripKeepsFirst(s[..|s| - 1]);
    }
  }

  // ---------------------------------------------------------------------
  // Directives to escape codes

  function ColorCode(base: int, c: Option<(int, int, int)>): Option<string>
  {
    match c
    case Some((r, g, b)) => Some(Csi([base, 2, r, g, b], "m"))
    case None => None
  }

  /** `tag_color(tag)`: the foreground code then the background code; a
      colour key that is present must parse. */
  function TagColor(tag: Tag): (r: Option<string>)
    ensures r.Some? <==> (("foreground" in tag.data ==> Rgb(tag.data["foreground"]).Some?)
                          && ("background" in tag.data ==> Rgb(tag.data["background"]).Some?))
    ensures "foreground" !in tag.data && "background" !in tag.data ==> r == Some("\U{1B}[39m\U{1B}[49m")
    ensures "foreground" !in tag.data && "background" in tag.data && r.Some? ==>
              |r.value| > 5 && r.value[..5] == "\U{1B}[39m"
    ensures "foreground" in tag.data && "background" !in tag.data && r.Some? ==>
              |r.value| > 5 && r.value[|r.value| - 5..] == "\U{1B}[49m"
    ensures "foreground" in tag.data && r.Some? ==>
              var c := Rgb(tag.data["foreground"]).value;
              var code := Csi([38, 2, c.0, c.1, c.2], "m");
              |code| <= |r.value| && r.value[..|code|] == code
    ensures "background" in tag.data && r.Some? ==>
              var c := Rgb(tag.data["background"]).value;
              var code := Csi([48, 2, c.0, c.1, c.2], "m");
              |code| <= |r.value| && r.value[|r.value| - |code|..] == code
  {
    var fg := if "foreground" in tag.data then ColorCode(38, Rgb(tag.data["foreground"])) else Some(Csi([39], "m"));
    var bg := if "background" in tag.data then ColorCode(48, Rgb(tag.data["background"])) else Some(Csi([49], "m"));
    SmallCodes();
    assert "\U{1B}[39m" + "\U{1B}[49m" == "\U{1B}[39m\U{1B}[49m";
    CombineEnds(fg, bg, "\U{1B}[39m", "\U{1B}[49m");
    Combine(fg, bg)
  }

  /** A fixed code in front or behind stays at that end of the pair. */
  lemma CombineEnds(x: Option<string>, y: Option<string>, front: string, back: string)
    ensures x == Some(front) && y.Some? && y.value != "" ==>
              |Combine(x, y).value| > |front| && Combine(x, y).value[..|front|] == front
    ensures y == Some(back) && x.Some? && x.value != "" ==>
              |Combine(x, y).value| > |back| && Combine(x, y).value[|Combine(x, y).value| - |back|..] == back
  {
  }

  /** `get_code(tag)` with the `codes` table inlined: Bold and Italic have a
      fixed open/close pair, Color is computed, any other kind encodes as "". */
  function GetCode(tag: Tag): Option<string>
  {
    match tag.kind
    case Bold => Some(if tag.open then Csi([1], "m") else Csi([22], "m"))
    case Italic => Some(if tag.open then Csi([3], "m") else Csi([23], "m"))
    case Color => if tag.open then TagColor(tag) else Some(Csi([39, 49], "m"))
    case _ => Some("")
  }

  lemma SmallCodes()
    ensures Csi([39], "m") == "\U{1B}[39m" && Csi([49], "m") == "\U{1B}[49m"
    ensures Csi([1], "m") == "\U{1B}[1m" && Csi([22], "m") == "\U{1B}[22m"
    ensures Csi([3], "m") == "\U{1B}[3m" && Csi([23], "m") == "\U{1B}[23m"
    ensures Csi([39, 49], "m") == "\U{1B}[39;49m"
  {
    assert IntToDecimal(39) == "39" && IntToDecimal(49) == "49";
    assert IntToDecimal(22) == "22" && IntToDecimal(23) == "23";
    assert IntToDecimal(1) == "1" && IntToDecimal(3) == "3";
    CsiSingle(39); CsiSingle(49); CsiSingle(1); CsiSingle(22); CsiSingle(3); CsiSingle(23);
    CsiPair(39, 49);
  }

  lemma CsiSingle(p: int)
    ensures Csi([p], "m") == [ESC, '['] + IntToDecimal(p) + "m"
  {
    assert seq(1, i requires 0 <= i < 1 => IntToDecimal([p][i])) == [IntToDecimal(p)];
  }

  lemma CsiPair(p: int, q: int)
    ensures Csi([p, q], "m") == [ESC, '['] + IntToDecimal(p) + ";" + IntToDecimal(q) + "m"
  {
    assert seq(2, i requires 0 <= i < 2 => IntToDecimal([p, q][i])) == [IntToDecimal(p), IntToDecimal(q)];
    assert Join(";", [IntToDecimal(q)]) == IntToDecimal(q);
  }

  lemma GetCodeFixed(tag: Tag)
    ensures tag.kind == Bold ==> GetCode(tag) == Some(if tag.open then "\U{1B}[1m" else "\U{1B}[22m")
    ensures tag.kind == Italic ==> GetCode(tag) == Some(if tag.open then "\U{1B}[3m" else "\U{1B}[23m")
    ensures tag.kind == Color && !tag.open ==> GetCode(tag) == Some("\U{1B}[39;49m")
    ensures tag.kind !in {Bold, Italic, Color} ==> GetCode(tag) == Some("")
  {
    SmallCodes();
  }

  function ItemCode(item: Item): Option<string>
  {
    match item
    case Text(s) => Some(s)
    case Directive(t) => GetCode(t)
  }

  /** What `format_tags` returns for a line; None when a directive's code
      raises. */
  function Encode(line: seq<Item>): Option<string>
  {
    if line == [] then Some("")
    else match (Encode(line[..|line| - 1]), ItemCode(line[|line| - 1]))
      case (Some(a), Some(b)) => Some(a + b)
      case _ => None
  }

  /** `AnsiFormatter.format_tags`: append each element's text or code. */
  method FormatTags(line: seq<Item>) returns (result: Option<string>)
    ensures result == Encode(line)
  {
    var acc := "";
    var i := 0;
    while i < |line|
      invariant 0 <= i <= |line|
      invariant Encode(line[..i]) == Some(acc)
    {
      assert line[..i + 1][..i] == line[..i];
      var code := ItemCode(line[i]);
      if code.None? {
        EncodeFailureSticks(line, i + 1);
        return None;
      }
      acc := acc + code.value;
      i := i + 1;
    }
    assert line[..i] == line;
    result := Some(acc);
  }

  lemma {:induction false} EncodeFailureSticks(line: seq<Item>, k: nat)
    requires k <= |line| && Encode(line[..k]) == None
    ensures Encode(line) == None
    decreases |line| - k
  {
    if k < |line| {
      assert line[..k + 1][..k] == line[..k];
      EncodeFailureSticks(line, k + 1);
    } else {
      assert line[..k] == line;
    }
  }

  function Combine(a: Option<string>, b: Option<string>): Option<string>
  {
    if a.Some? && b.Some? then Some(a.value + b.value) else None
  }

  /** Encoding distributes over concatenation of lines. */
  lemma {:induction false} EncodeAppend(a: seq<Item>, b: seq<Item>)
    ensures Encode(a + b) == Combine(Encode(a), Encode(b))
    decreases |b|
  {
    if b == [] {
      assert a + b == a;
      if Encode(a).Some? {
        assert Encode(a).value + "" == Encode(a).value;
      }
    } else {
      var b', last := b[..|b| - 1], b[|b| - 1];
      assert b == b' + [last];
      assert a + b == (a + b') + [last];
      EncodeAppend(a, b');
      EncodeSnoc(a + b', last);
      EncodeSnoc(b', last);
      CombineAssociative(Encode(a), Encode(b'), ItemCode(last));
    }
  }

  lemma EncodeSnoc(line: seq<Item>, item: Item)
    ensures Encode(line + [item]) == Combine(Encode(line), ItemCode(item))
  {
    var l := line + [item];
    assert l[..|l| - 1] == line && l[|l| - 1] == item;
  }

  lemma CombineAssociative(x: Option<string>, y: Option<string>, z: Option<string>)
    ensures Combine(Combine(x, y), z) == Combine(x, Combine(y, z))
  {
    if x.Some? && y.Some? && z.Some? {
      assert (x.value + y.value) + z.value == x.value + (y.value + z.value);
    }
  }

  /** Strings are copied verbatim and in order; a line of directives the
      encoder has no code for encodes as its texts alone. */
  lemma {:induction false} EncodeTextsOnly(line: seq<Item>)
    requires forall i :: 0 <= i < |line| ==> line[i].Directive? ==> line[i].tag.kind !in {Bold, Italic, Color}
    ensures Encode(line) == Some(Texts(line))
  {
    if line != [] {
      EncodeTextsOnly(line[..|line| - 1]);
    }
  }
}
