/**
 The memory view: where the hex dump writes every byte, whether its lines fit the window, and how
 the ASCII dump merges converted characters into spans.
 */
module HexDump {

  type Byte = b: nat | b < 256

  // ---------------------------------------------------------------- printf's %0<w>x

  function Digit(d: nat): char
    requires d < 16
  {
    "0123456789abcdef"[d]
  }

  function PrintHex(n: nat, w: nat): (s: string)
    ensures |s| >= w && |s| > 0
  {
    if n < 16 && w <= 1 then [Digit(n)] else PrintHex(n / 16, if w == 0 then 0 else w - 1) + [Digit(n % 16)]
  }

  function Pow16(k: nat): (p: nat)
    ensures p > 0
  {
    if k == 0 then 1 else 16 * Pow16(k - 1)
  }

  lemma {:induction false} PrintHexWidth(n: nat, w: nat)
    requires w > 0
    ensures |PrintHex(n, w)| == w <==> n < Pow16(w)
  {
    if w == 1 {
      assert Pow16(1) == 16 * Pow16(0) == 16;
    } else {
      PrintHexWidth(n / 16, w - 1);
    }
  }

  // the value of a hexadecimal digit in lower case, and of a text of them
  function NybbleOf(c: char): int {
    if '0' <= c <= '9' then c as int - '0' as int
    else if 'a' <= c <= 'f' then c as int - 'a' as int + 10
    else -1
  }

  function HexValue(s: string): int {
    if s == "" then 0 else 16 * HexValue(s[..|s| - 1]) + NybbleOf(s[|s| - 1])
  }

  predicate HexDigits(s: string) {
    forall i :: 0 <= i < |s| ==> NybbleOf(s[i]) >= 0
  }

  // the text is the number's
  lemma {:induction false} PrintHexReads(n: nat, w: nat)
    ensures HexDigits(PrintHex(n, w)) && HexValue(PrintHex(n, w)) == n
  {
    DigitReads(n % 16);
    if n < 16 && w <= 1 {
      assert PrintHex(n, w)[..0] == "";
    } else {
      var rest := PrintHex(n / 16, if w == 0 then 0 else w - 1);
      PrintHexReads(n / 16, if w == 0 then 0 else w - 1);
      assert PrintHex(n, w)[..|rest|] == rest;
    }
  }

  lemma DigitReads(d: nat)
    requires d < 16
    ensures NybbleOf(Digit(d)) == d
  {
    var digits := "0123456789abcdef";
    assert forall k: nat :: k < 10 ==> digits[k] as int == '0' as int + k;
    assert forall k: nat :: 10 <= k < 16 ==> digits[k] as int == 'a' as int + k - 10;
  }

  // the truncated (log2(len + 1) / 4) + 1
  function Nybbles(n: nat): (k: nat)
    ensures k > 0 && n < Pow16(k) && (n > 0 ==> Pow16(k - 1) <= n)
  {
    if n < 16 then assert Pow16(1) == 16 * Pow16(0); 1 else 1 + Nybbles(n / 16)
  }

  // ---------------------------------------------------------------- the layout

  const SPACING := 4

  // a line has room for this many bytes in a window of "horizChars" characters; 0 if too narrow
  function BytesPerLine(horizChars: int, addressChars: nat): (b: nat)
    ensures b % 8 == 0 && (b > 0 ==> addressChars + 4 * b + SPACING <= horizChars)
    ensures addressChars + 4 * (b + 8) + SPACING > horizChars
  {
    var room := horizChars - addressChars - SPACING;
    if room <= 0 then 0 else room / 4 / 8 * 8
  }

  predicate IsPrint(b: Byte) {
    32 <= b < 127
  }

  function Ascii(b: Byte): char {
    if IsPrint(b) then b as char else '.'
  }

  function Address(addr: nat, nybbles: nat): string {
    "0x" + PrintHex(addr, nybbles) + ": "
  }

  function Spaces(n: nat): (r: string)
    ensures |r| == n
  {
    seq(n, _ => ' ')
  }

  predicate ShowsAt(text: string, pos: nat, s: string) {
    pos + |s| <= |text| && text[pos..pos + |s|] == s
  }

  lemma PartShown(text: string, pos: nat, s: string, q: nat, n: nat)
    requires ShowsAt(text, pos, s) && q + n <= |s|
    ensures ShowsAt(text, pos + q, s[q..q + n])
  {
    var all, part := text[pos..pos + |s|], text[pos + q..pos + q + n];
    forall k | 0 <= k < n ensures part[k] == s[q..q + n][k] {
      assert part[k] == text[pos + q + k] == all[q + k];
    }
  }

  // ---------------------------------------------------------------- one line

  function HexPart(s: seq<Byte>): (r: string)
    decreases |s|
  {
    if s == [] then "" else HexPart(s[..|s| - 1]) + (PrintHex(s[|s| - 1], 2) + " ")
  }

  function AsciiPart(s: seq<Byte>): (r: string)
    ensures |r| == |s|
  {
    seq(|s|, i requires 0 <= i < |s| => Ascii(s[i]))
  }

  lemma OneMore(s: seq<Byte>, t: seq<Byte>, c: Byte)
    requires t == s + [c]
    ensures HexPart(t) == HexPart(s) + (PrintHex(c, 2) + " ")
    ensures AsciiPart(t) == AsciiPart(s) + [Ascii(c)]
  {
    assert t[..|t| - 1] == s;
  }

  lemma TwoDigits(b: Byte)
    ensures |PrintHex(b, 2)| == 2
  {
    assert Pow16(2) == 16 * Pow16(1) == 16 * (16 * Pow16(0));
    PrintHexWidth(b, 2);
  }

  // two digits and a space for each byte
  lemma {:induction false} HexPartAt(s: seq<Byte>, k: nat)
    ensures |HexPart(s)| == 3 * |s|
    ensures k < |s| ==> HexPart(s)[3 * k..3 * k + 2] == PrintHex(s[k], 2)
    decreases |s|
  {
    if s != [] {
      var init, last := s[..|s| - 1], s[|s| - 1];
      HexPartAt(init, if k < |init| then k else 0);
      TwoDigits(last);
      if k < |init| {
        assert HexPart(s)[3 * k..3 * k + 2] == HexPart(init)[3 * k..3 * k + 2];
      } else if k == |init| {
        assert HexPart(s)[3 * k..3 * k + 2] == PrintHex(last, 2);
      }
    }
  }

  // address, digits, padding, characters
  function LineText(chunk: seq<Byte>, from: nat, pad: nat, nybbles: nat): string {
    Address(from, nybbles) + (HexPart(chunk) + (Spaces(3 * pad) + (Spaces(SPACING) + (AsciiPart(chunk) + "\n"))))
  }

  // columns of a line whose address takes the computed width
  lemma LineParts(chunk: seq<Byte>, from: nat, pad: nat, nybbles: nat)
    requires nybbles > 0 && from < Pow16(nybbles)
    ensures var line := LineText(chunk, from, pad, nybbles);
            && |line| == 4 + nybbles + 4 * |chunk| + 3 * pad + SPACING + 1
            && ShowsAt(line, 0, Address(from, nybbles)) && ShowsAt(line, 4 + nybbles, HexPart(chunk))
            && ShowsAt(line, 4 + nybbles + 3 * |chunk| + 3 * pad + SPACING, AsciiPart(chunk))
  {
    PrintHexWidth(from, nybbles);
    HexPartAt(chunk, 0);
  }

  lemma LineShowsDigits(chunk: seq<Byte>, from: nat, pad: nat, nybbles: nat, j: nat)
    requires nybbles > 0 && from < Pow16(nybbles) && j < |chunk|
    ensures ShowsAt(LineText(chunk, from, pad, nybbles), 4 + nybbles + 3 * j, PrintHex(chunk[j], 2))
  {
    LineParts(chunk, from, pad, nybbles);
    HexPartAt(chunk, j);
    PartShown(LineText(chunk, from, pad, nybbles), 4 + nybbles, HexPart(chunk), 3 * j, 2);
  }

  lemma LineShowsChar(chunk: seq<Byte>, from: nat, pad: nat, nybbles: nat, j: nat)
    requires nybbles > 0 && from < Pow16(nybbles) && j < |chunk|
    ensures ShowsAt(LineText(chunk, from, pad, nybbles), 4 + nybbles + 3 * |chunk| + 3 * pad + SPACING + j, [Ascii(chunk[j])])
  {
    LineParts(chunk, from, pad, nybbles);
    PartShown(LineText(chunk, from, pad, nybbles), 4 + nybbles + 3 * |chunk| + 3 * pad + SPACING, AsciiPart(chunk), j, 1);
    assert AsciiPart(chunk)[j..j + 1] == [Ascii(chunk[j])];
  }

  // ---------------------------------------------------------------- the whole dump

  // k * n, built up as the loops build it
  function Times(k: nat, n: nat): nat {
    if k == 0 then 0 else Times(k - 1, n) + n
  }

  lemma {:induction false} TimesIs(k: nat, n: nat)
    ensures Times(k, n) == k * n
  {
    if k > 0 { TimesIs(k - 1, n); }
  }

  lemma {:induction false} TimesGrows(k: nat, m: nat, n: nat)
    requires k <= m
    ensures Times(k, n) <= Times(m, n)
  {
    if k < m { TimesGrows(k, m - 1, n); }
  }

  // a full line and its newline
  function LineChars(bytes: nat, nybbles: nat): nat {
    4 + nybbles + 4 * bytes + SPACING + 1
  }

  // the bytes of the line that starts with byte "from"
  function Chunk(buff: seq<Byte>, from: nat, bytes: nat): seq<Byte>
    requires from <= |buff|
  {
    if from + bytes <= |buff| then buff[from..from + bytes] else buff[from..]
  }

  // one line of the buffer; only the last one is padded
  function Line(buff: seq<Byte>, from: nat, bytes: nat, nybbles: nat, lastPad: nat): string
    requires from <= |buff|
  {
    LineText(Chunk(buff, from, bytes), from, if from + bytes < |buff| then 0 else lastPad, nybbles)
  }

  // the first n lines
  function Dump(buff: seq<Byte>, bytes: nat, nybbles: nat, lastPad: nat, n: nat): string
    requires n > 0 ==> Times(n - 1, bytes) <= |buff|
  {
    if n == 0 then "" else Dump(buff, bytes, nybbles, lastPad, n - 1) + Line(buff, Times(n - 1, bytes), bytes, nybbles, lastPad)
  }

  // n lines hold the whole buffer
  predicate Complete(buff: seq<Byte>, bytes: nat, n: nat) {
    |buff| <= Times(n, bytes) && (n > 0 ==> Times(n - 1, bytes) < |buff|)
  }

  // the padding of the last line, computed from the size of the whole buffer
  function LastPad(size: nat, bytes: nat): nat
    requires bytes > 0
  {
    bytes - size % bytes
  }

  class MemoryViewCtrl {
    var buff: seq<Byte>

    constructor (data: seq<Byte>)
      ensures buff == data
    {
      buff := data;
    }

    // RefreshHexDump: the text, and its number of lines; "horizChars" is the window's width in
    // characters.  Nothing is written when not even eight bytes fit.
    method RefreshHexDump(horizChars: int) returns (text: string, lines: nat)
      ensures var nybbles := Nybbles(|buff| + 1);
              var bytes := BytesPerLine(horizChars, 4 + nybbles);
              if bytes == 0 then text == ""
              else Complete(buff, bytes, lines) && text == Dump(buff, bytes, nybbles, LastPad(|buff|, bytes), lines)
    {
      text, lines := "", 0;
      var nybbles := Nybbles(|buff| + 1);
      var bytesPerLine := BytesPerLine(horizChars, 4 + nybbles);
      if bytesPerLine <= 0 { return; }
      text, lines := WriteLines(buff, bytesPerLine, nybbles, LastPad(|buff|, bytesPerLine));
    }
  }

  method WriteLines(buff: seq<Byte>, bytesPerLine: nat, nybbles: nat, lastPad: nat) returns (text: string, lines: nat)
    requires bytesPerLine > 0
    ensures Complete(buff, bytesPerLine, lines) && text == Dump(buff, bytesPerLine, nybbles, lastPad, lines)
  {
    text, lines := "", 0;
    var i: nat := 0;
    while i < |buff|
      invariant i == if Times(lines, bytesPerLine) <= |buff| then Times(lines, bytesPerLine) else |buff|
      invariant lines > 0 ==> Times(lines - 1, bytesPerLine) < |buff|
      invariant text == Dump(buff, bytesPerLine, nybbles, lastPad, lines)
    {
      text, i := WriteLine(buff, text, i, bytesPerLine, nybbles, lastPad);
      lines := lines + 1;
    }
  }

  method WriteLine(buff: seq<Byte>, text0: string, from: nat, bytesPerLine: nat, nybbles: nat, lastPad: nat) returns (text: string, i: nat)
    requires bytesPerLine > 0 && from < |buff|
    ensures i == if from + bytesPerLine <= |buff| then from + bytesPerLine else |buff|
    ensures text == text0 + Line(buff, from, bytesPerLine, nybbles, lastPad)
  {
    var hex, ascii;
    hex, ascii, i := WriteBytes(buff, from, bytesPerLine);
    var rest := Spaces(SPACING) + (ascii + "\n");
    if |buff| == i {   // pad the last line
      rest := Spaces(3 * lastPad) + rest;
    } else {
      assert rest == Spaces(3 * 0) + rest;
    }
    text := text0 + (Address(from, nybbles) + (hex + rest));
  }

  // the inner loop, for both output streams
  method WriteBytes(buff: seq<Byte>, from: nat, bytesPerLine: nat) returns (hex: string, ascii: string, i: nat)
    requires bytesPerLine > 0 && from < |buff|
    ensures i == if from + bytesPerLine <= |buff| then from + bytesPerLine else |buff|
    ensures hex == HexPart(Chunk(buff, from, bytesPerLine)) && ascii == AsciiPart(Chunk(buff, from, bytesPerLine))
  {
    hex, ascii, i := "", "", from;
    var j := 0;
    while j < bytesPerLine && i < |buff|
      invariant 0 <= j <= bytesPerLine && i == from + j <= |buff|
      invariant hex == HexPart(buff[from..i]) && ascii == AsciiPart(buff[from..i])
    {
      var c := buff[i];
      OneMore(buff[from..i], buff[from..i + 1], c);
      hex := hex + (PrintHex(c, 2) + " ");
      ascii := ascii + [if IsPrint(c) then c as char else '.'];
      i, j := i + 1, j + 1;
    }
    assert buff[from..i] == Chunk(buff, from, bytesPerLine);
  }

  // ---------------------------------------------------------------- what it shows where

  predicate Sized(buff: seq<Byte>, bytes: nat, nybbles: nat) {
    bytes > 0 && nybbles > 0 && |buff| < Pow16(nybbles)
  }

  lemma {:induction false} DumpLength(buff: seq<Byte>, bytes: nat, nybbles: nat, lastPad: nat, n: nat)
    requires Sized(buff, bytes, nybbles) && Times(n, bytes) < |buff|
    ensures |Dump(buff, bytes, nybbles, lastPad, n)| == Times(n, LineChars(bytes, nybbles))
  {
    if n > 0 {
      var from := Times(n - 1, bytes);
      DumpLength(buff, bytes, nybbles, lastPad, n - 1);
      LineParts(Chunk(buff, from, bytes), from, 0, nybbles);
    }
  }

  lemma {:induction false} DumpPrefix(buff: seq<Byte>, bytes: nat, nybbles: nat, lastPad: nat, m: nat, n: nat)
    requires m <= n && (n > 0 ==> Times(n - 1, bytes) <= |buff|)
    ensures m > 0 ==> Times(m - 1, bytes) <= |buff|
    ensures Dump(buff, bytes, nybbles, lastPad, m) <= Dump(buff, bytes, nybbles, lastPad, n)
    decreases n
  {
    if m < n {
      DumpPrefix(buff, bytes, nybbles, lastPad, m, n - 1);
      PrefixGrows(Dump(buff, bytes, nybbles, lastPad, m), Dump(buff, bytes, nybbles, lastPad, n - 1),
                  Line(buff, Times(n - 1, bytes), bytes, nybbles, lastPad));
    }
  }

  lemma PrefixGrows(a: string, b: string, c: string)
    requires a <= b
    ensures a <= b + c
  {
  }

  // line ln stands at its place in the dump
  lemma LineStands(buff: seq<Byte>, bytes: nat, nybbles: nat, lastPad: nat, lines: nat, ln: nat)
    requires Sized(buff, bytes, nybbles) && Complete(buff, bytes, lines) && Times(ln, bytes) < |buff|
    ensures ShowsAt(Dump(buff, bytes, nybbles, lastPad, lines), Times(ln, LineChars(bytes, nybbles)),
                    Line(buff, Times(ln, bytes), bytes, nybbles, lastPad))
  {
    assert ln < lines by { if ln >= lines { TimesGrows(lines, ln, bytes); } }
    DumpLength(buff, bytes, nybbles, lastPad, ln);
    DumpPrefix(buff, bytes, nybbles, lastPad, ln + 1, lines);
    AfterPrefix(Dump(buff, bytes, nybbles, lastPad, ln), Line(buff, Times(ln, bytes), bytes, nybbles, lastPad),
                Dump(buff, bytes, nybbles, lastPad, lines));
  }

  lemma AfterPrefix(before: string, line: string, text: string)
    requires before + line <= text
    ensures ShowsAt(text, |before|, line)
  {
    assert text[|before|..|before| + |line|] == (before + line)[|before|..];
  }

  // a byte in a line of the given width that starts at "start" and has n bytes: its two digits at
  // column 3 * j after the address, its character at column j of the last part
  predicate ByteIn(text: string, start: nat, width: nat, n: nat, nybbles: nat, j: nat, b: Byte) {
    && width > n
    && ShowsAt(text, start + (4 + nybbles + 3 * j), PrintHex(b, 2))
    && ShowsAt(text, start + (width - 1 - n + j), [if 32 <= b < 127 then b as char else '.'])
  }

  lemma LineByte(buff: seq<Byte>, from: nat, bytes: nat, nybbles: nat, lastPad: nat, j: nat)
    requires Sized(buff, bytes, nybbles) && j < bytes && from + j < |buff|
    ensures var line := Line(buff, from, bytes, nybbles, lastPad);
            ByteIn(line, 0, |line|, |Chunk(buff, from, bytes)|, nybbles, j, buff[from + j])
  {
    var chunk, pad := Chunk(buff, from, bytes), if from + bytes < |buff| then 0 else lastPad;
    assert chunk[j] == buff[from + j];
    LineParts(chunk, from, pad, nybbles);
    LineShowsDigits(chunk, from, pad, nybbles, j);
    LineShowsChar(chunk, from, pad, nybbles, j);
  }

  lemma ByteInText(text: string, start: nat, line: string, n: nat, nybbles: nat, j: nat, b: Byte)
    requires ShowsAt(text, start, line) && ByteIn(line, 0, |line|, n, nybbles, j, b)
    ensures ByteIn(text, start, |line|, n, nybbles, j, b)
  {
    PartShown(text, start, line, 4 + nybbles + 3 * j, |PrintHex(b, 2)|);
    PartShown(text, start, line, |line| - 1 - n + j, 1);
  }

  // Every byte, ln and j being the quotient and remainder of its index by the bytes of a line.
  lemma ByteShown(buff: seq<Byte>, bytes: nat, nybbles: nat, lastPad: nat, lines: nat, ln: nat, j: nat)
    requires Sized(buff, bytes, nybbles) && Complete(buff, bytes, lines)
    requires j < bytes && Times(ln, bytes) + j < |buff|
    ensures var from := Times(ln, bytes);
            ByteIn(Dump(buff, bytes, nybbles, lastPad, lines), Times(ln, LineChars(bytes, nybbles)),
                   |Line(buff, from, bytes, nybbles, lastPad)|, |Chunk(buff, from, bytes)|, nybbles, j, buff[from + j])
  {
    var from := Times(ln, bytes);
    LineStands(buff, bytes, nybbles, lastPad, lines, ln);
    LineByte(buff, from, bytes, nybbles, lastPad, j);
    ByteInText(Dump(buff, bytes, nybbles, lastPad, lines), Times(ln, LineChars(bytes, nybbles)),
               Line(buff, from, bytes, nybbles, lastPad), |Chunk(buff, from, bytes)|, nybbles, j, buff[from + j]);
  }

  // The position of byte i's digits in closed form.
  lemma ByteShownAt(buff: seq<Byte>, bytes: nat, nybbles: nat, lastPad: nat, lines: nat, i: nat, ln: nat, j: nat)
    requires Sized(buff, bytes, nybbles) && Complete(buff, bytes, lines) && i < |buff| && i == ln * bytes + j && j < bytes
    ensures ShowsAt(Dump(buff, bytes, nybbles, lastPad, lines), ln * LineChars(bytes, nybbles) + (4 + nybbles + 3 * j), PrintHex(buff[i], 2))
  {
    TimesIs(ln, bytes);
    TimesIs(ln, LineChars(bytes, nybbles));
    ByteShown(buff, bytes, nybbles, lastPad, lines, ln, j);
  }

  // A line and the window: every line fits, unless the buffer fills its last line exactly and the
  // window has no room for the needless padding.
  lemma LineFitsIff(buff: seq<Byte>, horizChars: int, bytes: nat, nybbles: nat, ln: nat)
    requires nybbles == Nybbles(|buff| + 1) && bytes == BytesPerLine(horizChars, 4 + nybbles)
    requires bytes > 0 && Times(ln, bytes) < |buff|
    ensures |Line(buff, Times(ln, bytes), bytes, nybbles, LastPad(|buff|, bytes))| - 1 <= horizChars <==>
              Times(ln, bytes) + bytes != |buff| || 4 + nybbles + 7 * bytes + SPACING <= horizChars
  {
    var from := Times(ln, bytes);
    var rest := |buff| - from;
    if rest == bytes {
      ModOf(ln + 1, bytes, 0);
    } else if rest < bytes {
      ModOf(ln, bytes, rest);
    }
    LineWidth(buff, from, horizChars, bytes, nybbles, LastPad(|buff|, bytes));
  }

  // Eight bytes in a window of 41 characters: the first line has room for eight and is full, and its
  // padding makes it wider than the window.
  lemma FullLineDoesNotFit(buff: seq<Byte>, bytes: nat, nybbles: nat, ln: nat)
    requires |buff| == 8 && nybbles == Nybbles(|buff| + 1) && bytes == BytesPerLine(41, 4 + nybbles)
    requires Times(ln, bytes) == 0
    ensures bytes == 8 && |Line(buff, Times(ln, bytes), bytes, nybbles, LastPad(|buff|, bytes))| - 1 > 41
  {
    EightFit(nybbles, bytes);
    WiderThan(buff, 41, bytes, nybbles, ln);
  }

  lemma WiderThan(buff: seq<Byte>, horizChars: int, bytes: nat, nybbles: nat, ln: nat)
    requires nybbles == Nybbles(|buff| + 1) && bytes == BytesPerLine(horizChars, 4 + nybbles)
    requires bytes > 0 && Times(ln, bytes) + bytes == |buff| && 4 + nybbles + 7 * bytes + SPACING > horizChars
    ensures |Line(buff, Times(ln, bytes), bytes, nybbles, LastPad(|buff|, bytes))| - 1 > horizChars
  {
    LineFitsIff(buff, horizChars, bytes, nybbles, ln);
  }

  lemma EightFit(nybbles: nat, bytes: nat)
    requires nybbles == Nybbles(9) && bytes == BytesPerLine(41, 4 + nybbles)
    ensures nybbles == 1 && bytes == 8
  {
  }

  lemma LineWidth(buff: seq<Byte>, from: nat, horizChars: int, bytes: nat, nybbles: nat, lastPad: nat)
    requires Sized(buff, bytes, nybbles) && from < |buff| && 4 + nybbles + 4 * bytes + SPACING <= horizChars
    requires from + bytes == |buff| ==> lastPad == bytes
    requires from + bytes > |buff| ==> lastPad == from + bytes - |buff|
    ensures |Line(buff, from, bytes, nybbles, lastPad)| - 1 <= horizChars <==>
              from + bytes != |buff| || 4 + nybbles + 7 * bytes + SPACING <= horizChars
  {
    LineParts(Chunk(buff, from, bytes), from, if from + bytes < |buff| then 0 else lastPad, nybbles);
  }

  lemma ModOf(k: nat, bytes: nat, r: nat)
    requires r < bytes
    ensures (Times(k, bytes) + r) % bytes == r
  {
    TimesIs(k, bytes);
    Euclid(k, bytes, r, (k * bytes + r) / bytes);
  }

  lemma MulMono(a: nat, b: nat, m: nat)
    ensures a <= b ==> a * m <= b * m
  {
  }

  lemma Euclid(k: nat, m: nat, r: nat, q: nat)
    requires r < m && q == (k * m + r) / m
    ensures (k * m + r) % m == r && q == k
  {
    MulMono(q + 1, k, m);
    MulMono(k + 1, q, m);
  }

  // ---------------------------------------------------------------- the ASCII dump

  // RefreshAsciiDump, from characters to spans; "shown" says which characters are shown as they are
  method RefreshAsciiDump(buff: seq<Byte>, shown: Byte -> bool) returns (text: string, spans: seq<(nat, nat)>)
    ensures |text| == |buff|
    ensures forall i :: 0 <= i < |buff| ==> text[i] == if shown(buff[i]) then buff[i] as char else '.'
    ensures SpansOk(spans, |buff|)
    ensures forall i: nat | i < |buff| :: Covered(spans, i) <==> !shown(buff[i])
  {
    text := "";
    var markers: seq<nat> := [];
    var i := 0;
    while i < |buff|
      invariant 0 <= i <= |buff| == |buff| && |text| == i
      invariant forall k :: 0 <= k < i ==> text[k] == if shown(buff[k]) then buff[k] as char else '.'
      invariant Ascending(markers, i)
      invariant forall k: nat | k < i :: k in markers <==> !shown(buff[k])
    {
      var ok := shown(buff[i]);
      if !ok { markers := markers + [|text|]; }
      text := text + [if ok then buff[i] as char else '.'];
      i := i + 1;
    }
    spans := MergeSpans(markers, |buff|);
  }

  predicate Ascending(s: seq<nat>, bound: nat) {
    (forall i, j :: 0 <= i < j < |s| ==> s[i] < s[j]) && forall i :: 0 <= i < |s| ==> s[i] < bound
  }

  // sorted, not empty, neither overlapping nor touching
  predicate SpansOk(spans: seq<(nat, nat)>, bound: nat) {
    && (forall i :: 0 <= i < |spans| ==> spans[i].0 < spans[i].1 <= bound)
    && (forall i, j :: 0 <= i < j < |spans| ==> spans[i].1 < spans[j].0)
  }

  predicate InSpan(span: (nat, nat), p: nat) {
    span.0 <= p < span.1
  }

  predicate Covered(spans: seq<(nat, nat)>, p: nat) {
    exists i :: 0 <= i < |spans| && InSpan(spans[i], p)
  }

  method MergeSpans(markers: seq<nat>, bound: nat) returns (spans: seq<(nat, nat)>)
    requires Ascending(markers, bound)
    ensures SpansOk(spans, bound)
    ensures forall p: nat :: Covered(spans, p) <==> p in markers
  {
    spans := [];
    var k := 0;
    while k < |markers|
      invariant 0 <= k <= |markers|
      invariant SpansOk(spans, bound)
      invariant k > 0 ==> spans != [] && spans[|spans| - 1].1 == markers[k - 1] + 1
      invariant k == 0 ==> spans == []
      invariant forall p: nat :: Covered(spans, p) <==> p in markers[..k]
    {
      var pos := markers[k];
      ghost var was := spans;
      if |spans| > 0 && pos == spans[|spans| - 1].1 {
        spans := spans[|spans| - 1 := (spans[|spans| - 1].0, pos + 1)];
        LastGrows(was, spans, pos);
      } else {
        spans := spans + [(pos, pos + 1)];
        OneSpanMore(was, spans, pos);
      }
      assert markers[..k + 1] == markers[..k] + [pos];
      k := k + 1;
    }
    assert markers[..k] == markers;
  }

  lemma LastGrows(was: seq<(nat, nat)>, spans: seq<(nat, nat)>, pos: nat)
    requires was != [] && spans == was[|was| - 1 := (was[|was| - 1].0, pos + 1)]
    requires was[|was| - 1].0 < was[|was| - 1].1 == pos
    ensures forall p: nat :: Covered(spans, p) <==> Covered(was, p) || p == pos
  {
    var n := |was| - 1;
    forall p: nat ensures Covered(spans, p) <==> Covered(was, p) || p == pos {
      assert InSpan(spans[n], p) <==> InSpan(was[n], p) || p == pos;
      if Covered(was, p) {
        var i :| 0 <= i < |was| && InSpan(was[i], p);
        assert InSpan(spans[i], p);
      }
      if Covered(spans, p) {
        var i :| 0 <= i < |spans| && InSpan(spans[i], p);
        assert i != n ==> InSpan(was[i], p);
      }
    }
  }

  lemma OneSpanMore(was: seq<(nat, nat)>, spans: seq<(nat, nat)>, pos: nat)
    requires spans == was + [(pos, pos + 1)]
    ensures forall p: nat :: Covered(spans, p) <==> Covered(was, p) || p == pos
  {
    var n := |was|;
    forall p: nat ensures Covered(spans, p) <==> Covered(was, p) || p == pos {
      assert InSpan(spans[n], p) <==> p == pos;
      if Covered(was, p) {
        var i :| 0 <= i < |was| && InSpan(was[i], p);
        assert InSpan(spans[i], p);
      }
      if Covered(spans, p) {
        var i :| 0 <= i < |spans| && InSpan(spans[i], p);
        assert i != n ==> InSpan(was[i], p);
      }
    }
  }
}
