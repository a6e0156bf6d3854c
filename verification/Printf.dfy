/** `vsnprintf`: what a format means, and the state machine that lays it out in a buffer. */
module Printf {
  import opened Blocks

  const INT_MAX := 0x7fff_ffff

  /** One argument of a call: its word, and the string that word points to. */
  datatype Arg = Arg(word: Word, text: string)

  function Signed(w: Word): (v: int)
    ensures -INT_MAX - 1 <= v <= INT_MAX && (w - v) % 0x1_0000_0000 == 0
  {
    if w <= INT_MAX then w else w - 0x1_0000_0000
  }

  // ----- numbers

  function DigitChar(d: nat): (c: char)
    requires d < 16
  {
    "0123456789abcdef"[d]
  }

  function DigitValue(c: char): (d: nat) {
    if '0' <= c <= '9' then c as int - '0' as int else if 'a' <= c <= 'f' then c as int - 'a' as int + 10 else 0
  }

  function Shifted(v: nat, hex: bool): (r: nat)
    ensures v > 0 ==> r < v
  {
    if hex then v / 16 else v / 10
  }

  function Lowest(v: nat, hex: bool): (d: nat)
    ensures d < 16
  {
    if hex then v % 16 else v % 10
  }

  lemma SplitDigit(v: nat, hex: bool)
    ensures v == if hex then 16 * Shifted(v, hex) + Lowest(v, hex) else 10 * Shifted(v, hex) + Lowest(v, hex)
  {
  }

  /** A number written out, the highest digit first. */
  function Digits(v: nat, hex: bool): (s: string)
    ensures |s| > 0
  {
    (if Shifted(v, hex) == 0 then [] else Digits(Shifted(v, hex), hex)) + [DigitChar(Lowest(v, hex))]
  }

  /** The number a string of digits stands for. */
  function Number(s: string, hex: bool): (v: nat) {
    if s == "" then 0
    else
      var high, low := Number(s[..|s| - 1], hex), DigitValue(s[|s| - 1]);
      if hex then 16 * high + low else 10 * high + low
  }

  lemma DigitRoundTrip(d: nat)
    requires d < 16
    ensures DigitValue(DigitChar(d)) == d
  {
    if d < 10 {
      assert "0123456789"[d] == DigitChar(d);
    }
  }

  lemma NumberStep(s: string, d: nat, hex: bool)
    requires d < 16
    ensures Number(s + [DigitChar(d)], hex) == if hex then 16 * Number(s, hex) + d else 10 * Number(s, hex) + d
  {
    hide DigitChar, DigitValue;
    DigitRoundTrip(d);
    assert (s + [DigitChar(d)])[..|s|] == s;
  }

  /** Digits read back as the number. */
  lemma {:induction false} NumberOfDigits(v: nat, hex: bool)
    ensures Number(Digits(v, hex), hex) == v
    decreases v
  {
    hide Shifted, Lowest, DigitChar;
    var h, d := Shifted(v, hex), Lowest(v, hex);
    SplitDigit(v, hex);
    if h == 0 {
      NumberStep("", d, hex);
    } else {
      NumberStep(Digits(h, hex), d, hex);
      NumberOfDigits(h, hex);
    }
  }

  function Repeat(c: char, n: int): (s: string)
    ensures |s| == (if n > 0 then n else 0) && forall i :: 0 <= i < |s| ==> s[i] == c
  {
    if n <= 0 then "" else [c] + Repeat(c, n - 1)
  }

  /** An unsigned number in a field of at least `width` characters. */
  function UnsignedText(width: nat, zero: bool, v: nat, hex: bool): (s: string)
    ensures |s| >= width && (|s| > width ==> s == Digits(v, hex))
  {
    var digits := Digits(v, hex);
    Repeat(if zero then '0' else ' ', width - |digits|) + digits
  }

  /** A signed number in a field of at least `width` characters. */
  function SignedText(width: nat, zero: bool, v: int): (s: string)
    ensures |s| >= width && (v < 0 ==> '-' in s)
  {
    var sign := if v < 0 then "-" else "";
    var digits := Digits(if v < 0 then -v else v, false);
    var pad := width - |sign| - |digits|;
    if zero then sign + Repeat('0', pad) + digits else Repeat(' ', pad) + sign + digits
  }

  // ----- reading back

  /** A number after any spaces. */
  function ReadUnsigned(s: string, hex: bool): (v: nat) {
    if s != "" && s[0] == ' ' then ReadUnsigned(s[1..], hex) else Number(s, hex)
  }

  /** A number after any spaces, negative after a minus sign. */
  function ReadSigned(s: string): (v: int) {
    if s != "" && s[0] == ' ' then ReadSigned(s[1..])
    else if s != "" && s[0] == '-' then 0 - Number(s[1..], false)
    else Number(s, false)
  }

  lemma {:induction false} LeadingZeros(n: int, s: string, hex: bool)
    ensures Number(Repeat('0', n) + s, hex) == Number(s, hex)
    decreases n, |s|
  {
    if n <= 0 {
      assert Repeat('0', n) + s == s;
    } else if s == "" {
      var z := Repeat('0', n);
      assert z + s == z && z[..|z| - 1] == Repeat('0', n - 1) && z[|z| - 1] == '0';
      assert Repeat('0', n - 1) + "" == Repeat('0', n - 1);
      LeadingZeros(n - 1, "", hex);
    } else {
      var t := Repeat('0', n) + s;
      assert t[..|t| - 1] == Repeat('0', n) + s[..|s| - 1] && t[|t| - 1] == s[|s| - 1];
      LeadingZeros(n, s[..|s| - 1], hex);
    }
  }

  lemma {:induction false} LeadingSpaces(n: int, s: string, hex: bool)
    ensures ReadUnsigned(Repeat(' ', n) + s, hex) == ReadUnsigned(s, hex)
    ensures ReadSigned(Repeat(' ', n) + s) == ReadSigned(s)
    decreases n
  {
    if n <= 0 {
      assert Repeat(' ', n) + s == s;
    } else {
      assert (Repeat(' ', n) + s)[1..] == Repeat(' ', n - 1) + s;
      LeadingSpaces(n - 1, s, hex);
    }
  }

  lemma DigitsStart(v: nat, hex: bool)
    ensures Digits(v, hex)[0] != ' ' && Digits(v, hex)[0] != '-'
  {
  }

  /** `%x` and `%u` read back as their argument, whatever the width and the padding. */
  lemma UnsignedReadsBack(width: nat, zero: bool, v: nat, hex: bool)
    ensures ReadUnsigned(UnsignedText(width, zero, v, hex), hex) == v
  {
    hide Digits, Number, Repeat;
    var digits := Digits(v, hex);
    var n := width - |digits|;
    NumberOfDigits(v, hex);
    DigitsStart(v, hex);
    if zero {
      LeadingZeros(n, digits, hex);
      if n <= 0 {
        assert Repeat('0', n) + digits == digits;
      }
    } else {
      LeadingSpaces(n, digits, hex);
    }
  }

  /** A sign and digits read back as the number. */
  lemma SignReadsBack(v: int, body: string)
    requires body != "" && body[0] != ' ' && body[0] != '-' && Number(body, false) == (if v < 0 then -v else v)
    ensures ReadSigned((if v < 0 then "-" else "") + body) == v
  {
    hide Number;
    var sign := if v < 0 then "-" else "";
    assert (sign + body)[|sign|..] == body;
    if v >= 0 {
      assert sign + body == body;
    }
  }

  /** `%d` reads back as its argument, whatever the width and the padding. */
  lemma SignedReadsBack(width: nat, zero: bool, v: int)
    ensures ReadSigned(SignedText(width, zero, v)) == v
  {
    hide Digits, Number, Repeat, ReadSigned;
    var sign := if v < 0 then "-" else "";
    var m := if v < 0 then -v else v;
    var digits := Digits(m, false);
    var pad := width - |sign| - |digits|;
    NumberOfDigits(m, false);
    DigitsStart(m, false);
    if zero {
      var body := Repeat('0', pad) + digits;
      LeadingZeros(pad, digits, false);
      assert SignedText(width, zero, v) == sign + body;
      SignReadsBack(v, body);
    } else {
      assert SignedText(width, zero, v) == Repeat(' ', pad) + (sign + digits);
      LeadingSpaces(pad, sign + digits, false);
      SignReadsBack(v, digits);
    }
  }

  /** The shortest digits of a number: digits of the base, and no zero in front of another digit. */
  ghost predicate Numeral(s: string, v: nat, hex: bool) {
    && s != "" && Number(s, hex) == v && (|s| > 1 ==> s[0] != '0')
    && forall i :: 0 <= i < |s| ==> '0' <= s[i] <= '9' || (hex && 'a' <= s[i] <= 'f')
  }

  lemma DigitInBase(v: nat, hex: bool)
    ensures var c := DigitChar(Lowest(v, hex));
            ('0' <= c <= '9' || (hex && 'a' <= c <= 'f')) && (c == '0' <==> Lowest(v, hex) == 0)
  {
    var d := Lowest(v, hex);
    if d < 10 {
      assert "0123456789"[d] == DigitChar(d);
    }
  }

  lemma {:induction false} DigitsAreNumeral(v: nat, hex: bool)
    ensures Numeral(Digits(v, hex), v, hex) && (v > 0 ==> Digits(v, hex)[0] != '0')
    decreases v
  {
    hide Shifted, Lowest, DigitChar, Number;
    NumberOfDigits(v, hex);
    DigitInBase(v, hex);
    SplitDigit(v, hex);
    if Shifted(v, hex) > 0 { DigitsAreNumeral(Shifted(v, hex), hex); }
  }

  // ----- what a format means

  /** Undefined: a width beyond `int`, or the one number `%d` cannot negate. */
  datatype Outcome = Formatted(text: string) | Eof | Undefined

  function Prepend(s: string, o: Outcome): (r: Outcome) {
    match o
    case Formatted(t) => Formatted(s + t)
    case _ => o
  }

  predicate IsDigit(c: char) {
    '0' <= c <= '9'
  }

  /** The length of the digits at the start of `f`. */
  function DigitRun(f: string): (n: nat)
    ensures n <= |f| && (forall i :: 0 <= i < n ==> IsDigit(f[i])) && (n < |f| ==> !IsDigit(f[n]))
  {
    if f == "" || !IsDigit(f[0]) then 0 else 1 + DigitRun(f[1..])
  }

  /** The digits `s` read after the number `w`. */
  function Continued(w: nat, s: string): (r: nat)
    ensures r >= w
    decreases |s|
  {
    if s == "" then w else Continued(10 * w + DigitValue(s[0]), s[1..])
  }

  /** The text of a whole format, taking arguments from number `a` on. */
  function Expand(f: string, args: nat -> Arg, a: nat): (o: Outcome)
    decreases |f|, 2
  {
    if f == "" then Formatted("")
    else if f[0] != '%' then Prepend([f[0]], Expand(f[1..], args, a))
    else Directive(f[1..], args, a)
  }

  /** A directive after its percent sign: a zero at most, then the field. */
  function Directive(f: string, args: nat -> Arg, a: nat): (o: Outcome)
    decreases |f|, 3
  {
    if f != "" && f[0] == '0' then AfterZero(f[1..], args, a) else Field(f, args, a, false, 0)
  }

  function AfterZero(f: string, args: nat -> Arg, a: nat): (o: Outcome)
    decreases |f|, 2
  {
    if f != "" && f[0] == '0' then Eof else Field(f, args, a, true, 0)
  }

  /** A directive from its width on: digits up to a conversion, with `w` already read. */
  function Field(f: string, args: nat -> Arg, a: nat, zero: bool, w: nat): (o: Outcome)
    decreases |f|, 1
  {
    var n := DigitRun(f);
    var width := Continued(w, f[..n]);
    if width > INT_MAX then Undefined
    else if n == |f| then Eof
    else Convert(f[n], f[n + 1..], args, a, zero, width)
  }

  function Convert(c: char, f: string, args: nat -> Arg, a: nat, zero: bool, width: nat): (o: Outcome)
    decreases |f|, 3
  {
    var arg := args(a);
    match c
    case '%' => if zero || width != 0 then Eof else Prepend("%", Expand(f, args, a))
    case 'c' => if zero then Eof else Prepend(Repeat(' ', width - 1) + [CharOf(arg.word)], Expand(f, args, a + 1))
    case 's' => if zero then Eof else Prepend(Repeat(' ', width - |arg.text|) + arg.text, Expand(f, args, a + 1))
    case 'x' => if zero && width == 0 then Eof
                else Prepend(UnsignedText(width, zero, arg.word, true), Expand(f, args, a + 1))
    case 'u' => if zero && width == 0 then Eof
                else Prepend(UnsignedText(width, zero, arg.word, false), Expand(f, args, a + 1))
    case 'd' =>
      if zero && width == 0 then Eof
      else if Signed(arg.word) == -INT_MAX - 1 then Undefined
      else Prepend(SignedText(width, zero, Signed(arg.word)), Expand(f, args, a + 1))
    case _ => Eof
  }

  function CharOf(w: Word): (c: char) {
    (w % 256) as char
  }

  // ----- what the letters mean

  function Wider(a: nat, b: nat): nat {
    if a < b then b else a
  }

  /** The last `k` characters of the field after nothing but spaces, in the least field of that width. */
  ghost predicate AfterSpaces(piece: string, width: nat, k: nat) {
    |piece| == Wider(width, k) && forall i :: 0 <= i < |piece| - k ==> piece[i] == ' '
  }

  /** The digits of the number, filled up to the width. */
  ghost predicate Filled(piece: string, width: nat, pad: char, v: nat, hex: bool) {
    exists digits :: Numeral(digits, v, hex) && piece == Repeat(pad, width - |digits|) + digits
  }

  /** The same with the sign, which is in front of zeros and behind spaces. */
  ghost predicate SignFilled(piece: string, width: nat, zero: bool, v: int) {
    exists digits ::
      && Numeral(digits, if v < 0 then -v else v, false)
      && var sign := if v < 0 then "-" else "";
         var n := width - |sign| - |digits|;
         piece == if zero then sign + Repeat('0', n) + digits else Repeat(' ', n) + sign + digits
  }

  /** What a conversion leaves behind, by its letter. */
  ghost predicate Means(c: char, zero: bool, width: nat, arg: Arg, piece: string) {
    match c
    case '%' => piece == "%"
    case 'c' => AfterSpaces(piece, width, 1) && piece[|piece| - 1] as int == arg.word % 256
    case 's' => AfterSpaces(piece, width, |arg.text|) && piece[|piece| - |arg.text|..] == arg.text
    case 'x' =>
      ReadUnsigned(piece, true) == arg.word && Filled(piece, width, if zero then '0' else ' ', arg.word, true)
    case 'u' =>
      ReadUnsigned(piece, false) == arg.word && Filled(piece, width, if zero then '0' else ' ', arg.word, false)
    case 'd' => ReadSigned(piece) == Signed(arg.word) && SignFilled(piece, width, zero, Signed(arg.word))
    case _ => false
  }

  /** The flag and the width that a letter does not go with, or a letter that is none. */
  predicate Rejected(c: char, zero: bool, width: nat) {
    match c
    case '%' => zero || width != 0
    case 'c' => zero
    case 's' => zero
    case 'x' => zero && width == 0
    case 'u' => zero && width == 0
    case 'd' => zero && width == 0
    case _ => true
  }

  lemma UnsignedMeans(width: nat, zero: bool, v: nat, hex: bool)
    ensures var piece := UnsignedText(width, zero, v, hex);
            ReadUnsigned(piece, hex) == v && Filled(piece, width, if zero then '0' else ' ', v, hex)
  {
    hide Digits, Numeral, Repeat;
    UnsignedReadsBack(width, zero, v, hex);
    DigitsAreNumeral(v, hex);
  }

  lemma SignedMeans(width: nat, zero: bool, v: int)
    ensures var piece := SignedText(width, zero, v); ReadSigned(piece) == v && SignFilled(piece, width, zero, v)
  {
    hide Digits, Numeral, Repeat, ReadSigned;
    SignedReadsBack(width, zero, v);
    DigitsAreNumeral(if v < 0 then -v else v, false);
  }

  lemma PieceMeans(c: char, zero: bool, width: nat, arg: Arg)
    ensures c == '%' ==> Means(c, zero, width, arg, "%")
    ensures c == 'c' ==> Means(c, zero, width, arg, Repeat(' ', width - 1) + [CharOf(arg.word)])
    ensures c == 's' ==> Means(c, zero, width, arg, Repeat(' ', width - |arg.text|) + arg.text)
    ensures c == 'x' ==> Means(c, zero, width, arg, UnsignedText(width, zero, arg.word, true))
    ensures c == 'u' ==> Means(c, zero, width, arg, UnsignedText(width, zero, arg.word, false))
    ensures c == 'd' ==> Means(c, zero, width, arg, SignedText(width, zero, Signed(arg.word)))
  {
    hide UnsignedText, SignedText, ReadUnsigned, ReadSigned, Filled, SignFilled;
    UnsignedMeans(width, zero, arg.word, true);
    UnsignedMeans(width, zero, arg.word, false);
    SignedMeans(width, zero, Signed(arg.word));
  }

  /** The text of one conversion has the meaning of its letter. */
  lemma ConvertMeans(c: char, f: string, args: nat -> Arg, a: nat, zero: bool, width: nat) returns (piece: string)
    ensures Rejected(c, zero, width) ==> Convert(c, f, args, a, zero, width) == Eof
    ensures !Rejected(c, zero, width) && c == 'd' && Signed(args(a).word) == -INT_MAX - 1 ==>
              Convert(c, f, args, a, zero, width) == Undefined
    ensures !Rejected(c, zero, width) && !(c == 'd' && Signed(args(a).word) == -INT_MAX - 1) ==>
              && Means(c, zero, width, args(a), piece)
              && Convert(c, f, args, a, zero, width) == Prepend(piece, Expand(f, args, if c == '%' then a else a + 1))
  {
    hide Expand, UnsignedText, SignedText, Means, Repeat, CharOf;
    var arg := args(a);
    PieceMeans(c, zero, width, arg);
    piece := match c
      case 'c' => Repeat(' ', width - 1) + [CharOf(arg.word)]
      case 's' => Repeat(' ', width - |arg.text|) + arg.text
      case 'x' => UnsignedText(width, zero, arg.word, true)
      case 'u' => UnsignedText(width, zero, arg.word, false)
      case 'd' => SignedText(width, zero, Signed(arg.word))
      case _ => "%";
  }

  /** A width as it stands in a format: digits, the first of them not a zero. */
  ghost predicate IsWidth(w: string) {
    (forall i :: 0 <= i < |w| ==> IsDigit(w[i])) && (w != "" ==> w[0] != '0')
  }

  lemma {:induction false} ContinuedMore(v: nat, s: string, c: char)
    ensures Continued(v, s + [c]) == 10 * Continued(v, s) + DigitValue(c)
    decreases |s|
  {
    if s == "" {
      assert s + [c] == [c] && [c][1..] == "";
    } else {
      assert (s + [c])[1..] == s[1..] + [c];
      ContinuedMore(10 * v + DigitValue(s[0]), s[1..], c);
    }
  }

  lemma {:induction false} WidthRead(w: string)
    ensures Continued(0, w) == Number(w, false)
    decreases |w|
  {
    if w != "" {
      assert w == w[..|w| - 1] + [w[|w| - 1]];
      WidthRead(w[..|w| - 1]);
      ContinuedMore(0, w[..|w| - 1], w[|w| - 1]);
    }
  }

  lemma {:induction false} RunEnds(w: string, f: string)
    requires (forall i :: 0 <= i < |w| ==> IsDigit(w[i])) && (f != "" ==> !IsDigit(f[0]))
    ensures DigitRun(w + f) == |w|
    decreases |w|
  {
    if w == "" {
      assert w + f == f;
    } else {
      assert (w + f)[1..] == w[1..] + f;
      RunEnds(w[1..], f);
    }
  }

  /** A directive: a percent sign, a zero or none, and the rest of it. */
  function Percent(zero: bool, f: string): (r: string) {
    (if zero then "%0" else "%") + f
  }

  lemma PercentField(zero: bool, w: string, f: string, args: nat -> Arg, a: nat)
    requires IsWidth(w) && (f != "" ==> !IsDigit(f[0]))
    ensures Expand(Percent(zero, w + f), args, a) == Field(w + f, args, a, zero, 0)
  {
    hide Field;
    var g := Percent(zero, w + f);
    assert g[1..] == (if zero then "0" else "") + (w + f);
    if zero {
      assert Directive(g[1..], args, a) == AfterZero(g[1..][1..], args, a);
      assert g[1..][1..] == w + f;
    } else {
      assert g[1..] == w + f;
    }
  }

  /**
   * Any directive in any format: the flag, the width and the letter alone say whether it is rejected, and if it is
   * not, its text has the meaning of the letter and what follows goes on with the next argument.
   */
  lemma DirectiveMeans(zero: bool, w: string, c: char, f: string, args: nat -> Arg, a: nat) returns (piece: string)
    requires IsWidth(w) && !IsDigit(c) && Number(w, false) <= INT_MAX
    ensures var o := Expand(Percent(zero, w + ([c] + f)), args, a);
            var width := Number(w, false);
            && (Rejected(c, zero, width) ==> o == Eof)
            && (!Rejected(c, zero, width) && c == 'd' && args(a).word == 0x8000_0000 ==> o == Undefined)
            && (!Rejected(c, zero, width) && !(c == 'd' && args(a).word == 0x8000_0000) ==>
                  && Means(c, zero, width, args(a), piece)
                  && o == Prepend(piece, Expand(f, args, if c == '%' then a else a + 1)))
  {
    hide Expand, Convert, Means, Number, Percent, Rejected;
    var g := [c] + f;
    PercentField(zero, w, g, args, a);
    RunEnds(w, g);
    WidthRead(w);
    assert (w + g)[..|w|] == w && (w + g)[|w|] == c && (w + g)[|w| + 1..] == f;
    piece := ConvertMeans(c, f, args, a, zero, Number(w, false));
  }

  /** A directive that is cut off, or that has two zeros, is rejected; a width beyond `int` is not defined. */
  lemma BadDirective(zero: bool, w: string, f: string, args: nat -> Arg, a: nat)
    requires IsWidth(w)
    ensures Expand("%00" + f, args, a) == Eof
    ensures Number(w, false) <= INT_MAX ==> Expand(Percent(zero, w), args, a) == Eof
    ensures Number(w, false) > INT_MAX && f != "" && !IsDigit(f[0]) ==>
              Expand(Percent(zero, w + f), args, a) == Undefined
  {
    hide Number, Convert;
    var g := "%00" + f;
    assert g[1..][0] == '0' && g[1..][1..][0] == '0';
    assert Directive(g[1..], args, a) == AfterZero(g[1..][1..], args, a) == Eof;
    WidthRead(w);
    assert w + "" == w;
    PercentField(zero, w, "", args, a);
    RunEnds(w, "");
    assert w[..|w|] == w;
    if f != "" && !IsDigit(f[0]) {
      PercentField(zero, w, f, args, a);
      RunEnds(w, f);
      assert (w + f)[..|w|] == w;
    }
  }

  /** Everything outside directives stands for itself. */
  lemma {:induction false} PlainText(s: string, f: string, args: nat -> Arg, a: nat)
    requires '%' !in s
    ensures Expand(s + f, args, a) == Prepend(s, Expand(f, args, a))
    decreases |s|
  {
    if s == "" {
      assert s + f == f;
      PrependNothing(Expand(f, args, a));
    } else {
      assert (s + f)[1..] == s[1..] + f;
      PlainText(s[1..], f, args, a);
      PrependTwice([s[0]], s[1..], Expand(f, args, a));
      assert [s[0]] + s[1..] == s;
    }
  }

  lemma PrependNothing(o: Outcome)
    ensures Prepend("", o) == o
  {
    if o.Formatted? {
      assert "" + o.text == o.text;
    }
  }

  lemma PrependTwice(s: string, t: string, o: Outcome)
    ensures Prepend(s, Prepend(t, o)) == Prepend(s + t, o)
  {
    if o.Formatted? {
      assert s + (t + o.text) == s + t + o.text;
    }
  }

  lemma FieldDigit(f: string, args: nat -> Arg, a: nat, zero: bool, w: nat)
    requires f != "" && IsDigit(f[0])
    ensures Field(f, args, a, zero, w) == Field(f[1..], args, a, zero, 10 * w + DigitValue(f[0]))
  {
    var n := DigitRun(f);
    assert f[..n][1..] == f[1..][..n - 1];
    if n < |f| {
      assert f[n + 1..] == f[1..][n..];
    }
  }

  // ----- the buffer

  /** A buffer holding as much of `text` as its first `size` places can, over what was there before. */
  ghost predicate Laid(now: seq<char>, before: seq<char>, text: string, size: nat) {
    && |now| == |before|
    && forall k :: 0 <= k < |now| ==> now[k] == if k < |text| && k < size then text[k] else before[k]
  }

  /**
   * What a call leaves behind: as much of the text as fits with a NUL after it,
   * and every place beyond that as it was.
   */
  ghost predicate Terminated(now: seq<char>, before: seq<char>, text: string, size: nat) {
    && |now| == |before|
    && if size == 0 then now == before
       else
         var n := if |text| < size then |text| else size - 1;
         && n < |now| && now[..n] == text[..n] && now[n] == '\0'
         && now[n + 1..] == before[n + 1..]
  }

  /** Part of a number laid down from the right: its digits from number `low` on. */
  ghost predicate Partly(now: seq<char>, was: seq<char>, at: nat, digits: string, low: nat, size: nat) {
    && |now| == |was|
    && forall k :: 0 <= k < |now| ==>
         now[k] == if at + low <= k < at + |digits| && k < size then digits[k - at] else was[k]
  }

  lemma PartlyNone(was: seq<char>, at: nat, digits: string, size: nat)
    ensures Partly(was, was, at, digits, |digits|, size)
  {
  }

  lemma PartlyStep(now: seq<char>, was: seq<char>, at: nat, digits: string, low: nat, size: nat)
    requires Partly(now, was, at, digits, low, size) && 0 < low <= |digits| && size <= |now|
    ensures var i := at + low - 1;
            Partly(if i < size then now[i := digits[low - 1]] else now, was, at, digits, low - 1, size)
  {
  }

  lemma PartlyAll(now: seq<char>, was: seq<char>, before: seq<char>, text: string, digits: string, size: nat)
    requires Laid(was, before, text, size) && Partly(now, was, |text|, digits, 0, size)
    ensures Laid(now, before, text + digits, size)
  {
  }

  /** The last digit of what is left, and what is left after it. */
  lemma LastDigit(digits: string, left: nat, v: nat, hex: bool)
    requires 0 < left <= |digits| && digits[..left] == Digits(v, hex)
    ensures digits[left - 1] == DigitChar(Lowest(v, hex))
    ensures Shifted(v, hex) == 0 <==> left == 1
    ensures Shifted(v, hex) != 0 ==> digits[..left - 1] == Digits(Shifted(v, hex), hex)
  {
    hide Shifted, Lowest, DigitChar;
    assert digits[..left][left - 1] == digits[left - 1];
    assert digits[..left][..left - 1] == digits[..left - 1];
  }

  class Buffer {
    const data: array<char>
    const size: nat
    var index: nat
    ghost var text: string
    ghost const before: seq<char>

    ghost predicate Valid()
      reads this, data
    {
      size <= data.Length && index == |text| && Laid(data[..], before, text, size)
    }

    constructor (str: array<char>, n: nat)
      requires n <= str.Length
      ensures Valid() && data == str && size == n && text == "" && before == old(str[..])
    {
      data, size, index, text, before := str, n, 0, "", str[..];
    }

    /** `assign` */
    method Assign(i: int, c: char) returns (ok: bool)
      requires 0 <= i && size <= data.Length
      modifies data
      ensures ok == (i < size)
      ensures data[..] == if ok then old(data[..])[i := c] else old(data[..])
    {
      ok := i < size;
      if ok {
        data[i] := c;
      }
    }

    /** One character at the index. */
    method Put(c: char)
      requires Valid()
      modifies this`index, this`text, data
      ensures Valid() && text == old(text) + [c]
    {
      var ok := Assign(index, c);
      index := index + 1;
      text := text + [c];
    }

    /** The padding loops. */
    method Pad(c: char, n: int)
      requires Valid()
      modifies this`index, this`text, data
      ensures Valid() && text == old(text) + Repeat(c, n)
    {
      var i := 0;
      while i < n
        invariant Valid() && (0 <= i <= n || i == 0)
        invariant text + Repeat(c, n - i) == old(text) + Repeat(c, n)
      {
        assert text + Repeat(c, n - i) == text + [c] + Repeat(c, n - i - 1);
        Put(c);
        i := i + 1;
      }
      assert text + "" == text;
    }

    /** The loop over the characters of a string. */
    method PutString(s: string)
      requires Valid()
      modifies this`index, this`text, data
      ensures Valid() && text == old(text) + s
    {
      var i := 0;
      while i < |s|
        invariant Valid() && 0 <= i <= |s| && text == old(text) + s[..i]
      {
        Put(s[i]);
        i := i + 1;
      }
      assert s[..|s|] == s;
    }

    /** The loops that count digits. */
    method DigitCount(value: nat, hex: bool) returns (width: nat)
      ensures width == |Digits(value, hex)|
    {
      hide Shifted, DigitChar, Lowest;
      var v := Shifted(value, hex);
      width := 1;
      while v != 0
        invariant width + (if v == 0 then 0 else |Digits(v, hex)|) == |Digits(value, hex)|
        decreases v
      {
        width := width + 1;
        v := Shifted(v, hex);
      }
    }

    /** The loops that write digits from the last one back. */
    method PutDigits(value: nat, hex: bool, width: nat)
      requires Valid() && width == |Digits(value, hex)|
      modifies this`index, this`text, data
      ensures Valid() && text == old(text) + Digits(value, hex)
    {
      hide Digits, Shifted, Lowest, DigitChar, Laid, Partly;
      ghost var digits := Digits(value, hex);
      ghost var was := data[..];
      assert digits[..width] == digits;
      PartlyNone(was, index, digits, size);
      var v, left, more := value, width, true;
      while more
        invariant 0 <= left <= width && (more <==> left > 0)
        invariant more ==> digits[..left] == Digits(v, hex)
        invariant Partly(data[..], was, index, digits, left, size)
        invariant index == old(index) && text == old(text) && size <= data.Length
        decreases left
      {
        LastDigit(digits, left, v, hex);
        PartlyStep(data[..], was, index, digits, left, size);
        var ok := Assign(index + left - 1, DigitChar(Lowest(v, hex)));
        left := left - 1;
        v := Shifted(v, hex);
        more := v != 0;
      }
      PartlyAll(data[..], was, before, text, digits, size);
      index := index + width;
      text := text + digits;
    }

    /** `format_hex` and `format_unsigned_dec` */
    method PutUnsigned(width: nat, zero: bool, value: nat, hex: bool)
      requires Valid()
      modifies this`index, this`text, data
      ensures Valid() && text == old(text) + UnsignedText(width, zero, value, hex)
    {
      hide Digits, Laid;
      var n := DigitCount(value, hex);
      Pad(if zero then '0' else ' ', width - n);
      PutDigits(value, hex, n);
    }

    /** `format_signed_dec` */
    method PutSigned(width: nat, zero: bool, value: int)
      requires Valid() && value > -INT_MAX - 1
      modifies this`index, this`text, data
      ensures Valid() && text == old(text) + SignedText(width, zero, value)
    {
      hide Digits, Laid, Repeat;
      var size := if value < 0 then -value else value;
      var digits := DigitCount(size, false);
      var n := if value < 0 then 1 + digits else digits;
      if zero {
        if value < 0 {
          Put('-');
        }
        Pad('0', width - n);
      } else {
        Pad(' ', width - n);
        if value < 0 {
          Put('-');
        }
      }
      PutDigits(size, false, digits);
    }

    /** The switch on the type of a conversion. */
    method PutConversion(c: char, ghost rest: string, args: nat -> Arg, a: nat, zero: bool, width: nat)
      returns (ok: bool, next: nat)
      requires Valid() && !Convert(c, rest, args, a, zero, width).Undefined?
      modifies this`index, this`text, data
      ensures Valid()
      ensures !ok ==> Convert(c, rest, args, a, zero, width) == Eof
      ensures ok <==> !Rejected(c, zero, width)
      ensures ok ==>
                && Prepend(old(text), Convert(c, rest, args, a, zero, width)) == Prepend(text, Expand(rest, args, next))
                && |old(text)| <= |text| && text[..|old(text)|] == old(text)
                && Means(c, zero, width, args(a), text[|old(text)|..]) && next == if c == '%' then a else a + 1
    {
      hide Laid, Expand, Repeat, UnsignedText, SignedText, CharOf, Means;
      ok, next := true, a + 1;
      var arg := args(a);
      ghost var piece := "";
      PieceMeans(c, zero, width, arg);
      match c {
        case '%' =>
          if zero || width != 0 {
            return false, a;
          }
          piece, next := "%", a;
          Put(c);
        case 'c' =>
          if zero {
            return false, a;
          }
          piece := Repeat(' ', width - 1) + [CharOf(arg.word)];
          Pad(' ', width - 1);
          Put(CharOf(arg.word));
        case 's' =>
          if zero {
            return false, a;
          }
          piece := Repeat(' ', width - |arg.text|) + arg.text;
          Pad(' ', width - |arg.text|);
          PutString(arg.text);
        case 'x' =>
          if zero && width == 0 {
            return false, a;
          }
          piece := UnsignedText(width, zero, arg.word, true);
          PutUnsigned(width, zero, arg.word, true);
        case 'd' =>
          if zero && width == 0 {
            return false, a;
          }
          piece := SignedText(width, zero, Signed(arg.word));
          PutSigned(width, zero, Signed(arg.word));
        case 'u' =>
          if zero && width == 0 {
            return false, a;
          }
          piece := UnsignedText(width, zero, arg.word, false);
          PutUnsigned(width, zero, arg.word, false);
        case _ =>
          return false, a;
      }
      assert text == old(text) + piece;
      assert text[..|old(text)|] == old(text) && text[|old(text)|..] == piece;
      PrependTwice(old(text), piece, Expand(rest, args, next));
    }
  }

  // ----- the state machine

  datatype State = InString | InFlag | InWidth

  /** Nothing at or past `size` has changed. */
  ghost predicate Within(now: seq<char>, before: seq<char>, size: nat) {
    |now| == |before| && forall k :: size <= k < |now| ==> now[k] == before[k]
  }

  lemma Finished(now: seq<char>, before: seq<char>, text: string, size: nat)
    requires Laid(now, before, text, size) && size <= |now|
    ensures var n := |text|;
            Terminated(if n < size then now[n := '\0'] else if size > 0 then now[size - 1 := '\0'] else now,
                       before, text, size)
  {
  }

  lemma LaidWithin(now: seq<char>, before: seq<char>, text: string, size: nat)
    requires Laid(now, before, text, size)
    ensures Within(now, before, size)
  {
  }

  /** Where the machine stands between two characters of the format. */
  datatype Machine = Machine(st: State, zero: bool, width: nat, next: nat)

  /** What is still to come, from where the machine stands. */
  ghost function Rest(m: Machine, f: string, args: nat -> Arg): (o: Outcome) {
    match m.st
    case InString => Expand(f, args, m.next)
    case InFlag => if m.zero then AfterZero(f, args, m.next) else Directive(f, args, m.next)
    case InWidth => Field(f, args, m.next, m.zero, m.width)
  }

  ghost predicate Settled(m: Machine) {
    (m.st == InString ==> !m.zero && m.width == 0) && (m.st == InFlag ==> m.width == 0)
  }

  /** One character of the format. */
  method Step(buf: Buffer, c: char, ghost f: string, args: nat -> Arg, m: Machine) returns (ok: bool, n: Machine)
    requires buf.Valid() && f != "" && c == f[0] && Settled(m)
    requires !Rest(m, f, args).Undefined?
    modifies buf`index, buf`text, buf.data
    ensures buf.Valid() && Settled(n)
    ensures !ok ==> Rest(m, f, args) == Eof
    ensures ok ==> Prepend(old(buf.text), Rest(m, f, args)) == Prepend(buf.text, Rest(n, f[1..], args))
  {
    hide Expand, Field, Convert, Prepend, Laid;
    ok, n := true, m;
    if m.st == InString {
      StringStep(buf.text, f, args, m.next);
      if c == '%' {
        n := m.(st := InFlag);
      } else {
        buf.Put(c);
      }
    } else if m.st == InFlag && c == '0' {
      if m.zero {
        return false, m;
      }
      n := m.(zero := true);
    } else if IsDigit(c) {
      FieldDigit(f, args, m.next, m.zero, m.width);
      n := m.(st := InWidth, width := 10 * m.width + DigitValue(c));
    } else {
      FieldConversion(f, args, m.next, m.zero, m.width);
      var next;
      ok, next := buf.PutConversion(c, f[1..], args, m.next, m.zero, m.width);
      n := Machine(InString, false, 0, next);
    }
  }

  /**
   * `vsnprintf`: the length of the text the format means, whatever the size, and
   * as much of the text as fits in the buffer.
   */
  method Vsnprintf(str: array<char>, size: nat, format: string, args: nat -> Arg) returns (r: int)
    requires size <= INT_MAX ==> size <= str.Length
    requires !Expand(format, args, 0).Undefined?
    requires Expand(format, args, 0).Formatted? ==> |Expand(format, args, 0).text| <= INT_MAX
    modifies str
    ensures size > INT_MAX ==> r == -1 && str[..] == old(str[..])
    ensures size <= INT_MAX && Expand(format, args, 0).Eof? ==> r == -1 && Within(str[..], old(str[..]), size)
    ensures size <= INT_MAX && Expand(format, args, 0).Formatted? ==>
              var text := Expand(format, args, 0).text;
              r == |text| && Terminated(str[..], old(str[..]), text, size)
  {
    hide Laid, Terminated, Expand, Rest, Within;
    if size > INT_MAX {
      return -1;
    }
    var buf := new Buffer(str, size);
    var m, p := Machine(InString, false, 0, 0), 0;
    ghost var whole := Expand(format, args, 0);
    assert format[0..] == format;
    RestAtStart(format, args);
    while p < |format|
      invariant 0 <= p <= |format| && buf.Valid() && Settled(m)
      invariant buf.data == str && buf.size == size && buf.before == old(str[..])
      invariant whole == Prepend(buf.text, Rest(m, format[p..], args))
    {
      assert format[p..][1..] == format[p + 1..];
      var ok;
      ok, m := Step(buf, format[p], format[p..], args, m);
      if !ok {
        LaidWithin(str[..], buf.before, buf.text, size);
        return -1;
      }
      p := p + 1;
    }
    assert format[p..] == "";
    RestAtEnd(m, args);
    LaidWithin(str[..], buf.before, buf.text, size);
    if m.st != InString {
      return -1;
    }
    assert buf.text + "" == buf.text;
    Finished(str[..], buf.before, buf.text, size);
    var ok := buf.Assign(buf.index, '\0');
    if !ok && size > 0 {
      ok := buf.Assign(size - 1, '\0');
    }
    r := buf.index;
  }

  lemma RestAtStart(format: string, args: nat -> Arg)
    ensures Expand(format, args, 0) == Prepend("", Rest(Machine(InString, false, 0, 0), format, args))
  {
    var o := Expand(format, args, 0);
    if o.Formatted? {
      assert "" + o.text == o.text;
    }
  }

  /** At the end of the format only the string state is a text. */
  lemma RestAtEnd(m: Machine, args: nat -> Arg)
    ensures if m.st == InString then Rest(m, "", args) == Formatted("") else !Rest(m, "", args).Formatted?
  {
  }

  /** A plain character, or the start of a directive. */
  lemma StringStep(text: string, f: string, args: nat -> Arg, a: nat)
    requires f != ""
    ensures Prepend(text, Expand(f, args, a)) ==
            if f[0] == '%' then Prepend(text, Directive(f[1..], args, a))
            else Prepend(text + [f[0]], Expand(f[1..], args, a))
  {
    if f[0] != '%' {
      PrependTwice(text, [f[0]], Expand(f[1..], args, a));
    }
  }

  /** A field whose digits are over is its conversion. */
  lemma FieldConversion(f: string, args: nat -> Arg, a: nat, zero: bool, width: nat)
    requires f != "" && !IsDigit(f[0]) && !Field(f, args, a, zero, width).Undefined?
    ensures Field(f, args, a, zero, width) == Convert(f[0], f[1..], args, a, zero, width)
    ensures !Convert(f[0], f[1..], args, a, zero, width).Undefined?
  {
  }
}
