/** The printed form of a feed cursor: `PersonalCursor.Encode` and `ParsePersonalCursor`. */
module FeedCursor {
  import opened Basics

  /** Where one stream stands: blank, after the item `(rank, id)`, or done. */
  datatype Place<+R> = Place(rank: R, id: string, ok: bool, done: bool)

  /** Scores are in millionths; the small stream is ranked by a time in nanoseconds. */
  datatype Cursor = Cursor(main: Place<int>, small: Place<Int64>, gen: Place<int>)

  const BLANK: Place<int> := Place(0, "", false, false)
  const BLANK_NANO: Place<Int64> := Place(0, "", false, false)
  const FIRST := Cursor(BLANK, BLANK_NANO, BLANK)

  const DONE_ID := "!"
  const UNSET_ID := "-"

  // ---------- numbers ----------

  function DigitChar(d: nat): (c: char)
    requires d < 10
    ensures IsDigit(c) && DigitValue(c) == d
  {
    ('0' as int + d) as char
  }

  predicate IsDigit(c: char) { '0' <= c <= '9' }

  function DigitValue(c: char): (d: nat)
    requires IsDigit(c)
    ensures d < 10
  {
    c as int - '0' as int
  }

  predicate AllDigits(s: string) { forall i :: 0 <= i < |s| ==> IsDigit(s[i]) }

  function Value(s: string): nat
    requires AllDigits(s)
  {
    if s == "" then 0 else 10 * Value(s[..|s| - 1]) + DigitValue(s[|s| - 1])
  }

  function Digits(n: nat): (s: string)
    ensures s != "" && AllDigits(s) && Value(s) == n
  {
    if n < 10 then [DigitChar(n)]
    else
      var front := Digits(n / 10);
      assert (front + [DigitChar(n % 10)])[..|front|] == front;
      front + [DigitChar(n % 10)]
  }

  function Pow10(k: nat): (p: nat) ensures p >= 1 { if k == 0 then 1 else 10 * Pow10(k - 1) }

  /** Exactly `k` digits, with leading zeros. */
  function Padded(m: nat, k: nat): (s: string)
    requires m < Pow10(k)
    ensures |s| == k && AllDigits(s) && Value(s) == m
  {
    if k == 0 then ""
    else
      var front := Padded(m / 10, k - 1);
      assert (front + [DigitChar(m % 10)])[..|front|] == front;
      front + [DigitChar(m % 10)]
  }

  /** `%d` */
  function PrintInt(x: int): string {
    if x < 0 then "-" + Digits(-x) else Digits(x)
  }

  const MILLION := 1_000_000

  /** `%f` of `x` millionths. */
  function PrintMicros(x: int): string {
    if x < 0 then "-" + MicrosText(-x) else MicrosText(x)
  }

  predicate Signed(s: string) { s != "" && (s[0] == '-' || s[0] == '+') }

  function Unsigned(s: string): string { if Signed(s) then s[1..] else s }

  function WithSign(s: string, n: int): int { if s != "" && s[0] == '-' then -n else n }

  /** `strconv.ParseInt(s, 10, 64)` */
  function ParseInt(s: string): Option<Int64> {
    var body := Unsigned(s);
    if body == "" || !AllDigits(body) then None
    else
      var x := WithSign(s, Value(body));
      if -0x8000_0000_0000_0000 <= x < 0x8000_0000_0000_0000 then Some(x) else None
  }

  /** The number of millionths in an unsigned text: digits, a point, six digits. */
  function MicrosIn(body: string): Option<nat> {
    if |body| < 8 then None
    else
      var whole, point, fraction := body[..|body| - 7], body[|body| - 7], body[|body| - 6..];
      if point == '.' && AllDigits(whole) && AllDigits(fraction)
      then Some(MILLION * Value(whole) + Value(fraction)) else None
  }

  /** `strconv.ParseFloat` on what `%f` prints. */
  function ParseMicros(s: string): Option<int> {
    match MicrosIn(Unsigned(s)) case Some(n) => Some(WithSign(s, n)) case None => None
  }

  lemma ParsePrintedInt(x: Int64)
    ensures ParseInt(PrintInt(x)) == Some(x)
  {
    var a: int := x;
    if a < 0 { assert ("-" + Digits(-a))[1..] == Digits(-a); }
  }

  lemma MillionHasSixZeros()
    ensures Pow10(6) == MILLION
  {
    assert Pow10(3) == 1000;
    assert Pow10(4) == 10000;
  }

  lemma SignIsRead(body: string, negative: bool, n: int)
    requires body != "" && IsDigit(body[0])
    ensures var s := (if negative then "-" else "") + body;
            Unsigned(s) == body && WithSign(s, n) == if negative then -n else n
  {
    if negative { assert ("-" + body)[1..] == body; }
  }

  lemma MicrosInText(whole: string, fraction: string)
    requires whole != "" && AllDigits(whole) && |fraction| == 6 && AllDigits(fraction)
    ensures MicrosIn(whole + "." + fraction) == Some(MILLION * Value(whole) + Value(fraction))
  {
    PointSplits(whole, fraction);
  }

  lemma ParseSigned(body: string, negative: bool, n: int)
    requires body != "" && IsDigit(body[0]) && n >= 0 && MicrosIn(body) == Some(n)
    ensures ParseMicros((if negative then "-" else "") + body) == Some(if negative then -n else n)
  {
    SignIsRead(body, negative, n);
  }

  /** The text of `a` millionths without a sign. */
  function MicrosText(a: nat): (body: string)
    ensures body != "" && IsDigit(body[0]) && MicrosIn(body) == Some(a)
  {
    MillionHasSixZeros();
    var whole, fraction := Digits(a / MILLION), Padded(a % MILLION, 6);
    MicrosInText(whole, fraction);
    whole + "." + fraction
  }

  lemma ParsePrintedMicros(x: int)
    ensures ParseMicros(PrintMicros(x)) == Some(x)
  {
    var a := if x < 0 then -x else x;
    ParseSigned(MicrosText(a), x < 0, a);
    assert "" + MicrosText(a) == MicrosText(a);
  }

  lemma PointSplits(whole: string, fraction: string)
    requires whole != "" && |fraction| == 6
    ensures var body := whole + "." + fraction;
            && |body| >= 8 && body[0] == whole[0]
            && body[..|body| - 7] == whole && body[|body| - 7] == '.' && body[|body| - 6..] == fraction
  {
  }

  // ---------- splitting ----------

  /** `strings.SplitN(s, "_", n)` for `n >= 1`. */
  function SplitN(s: string, n: nat): (parts: seq<string>)
    requires n >= 1
    ensures 1 <= |parts| <= n
    ensures forall i :: 0 <= i < |parts| && i < n - 1 ==> '_' !in parts[i]
    decreases n
  {
    var k := FirstBar(s, 0);
    if n == 1 || k == |s| then [s] else [s[..k]] + SplitN(s[k + 1..], n - 1)
  }

  function FirstBar(s: string, i: nat): (k: nat)
    requires i <= |s|
    ensures i <= k <= |s| && (k < |s| ==> s[k] == '_') && '_' !in s[i..k]
    decreases |s| - i
  {
    if i == |s| || s[i] == '_' then i
    else
      var k := FirstBar(s, i + 1);
      assert s[i..k] == [s[i]] + s[i + 1..k];
      k
  }

  lemma SplitHead(a: string, rest: string, n: nat)
    requires '_' !in a && n >= 2
    ensures SplitN(a + "_" + rest, n) == [a] + SplitN(rest, n - 1)
  {
    var s := a + "_" + rest;
    var k := FirstBar(s, 0);
    assert forall i :: 0 <= i < |a| ==> s[i] == a[i];
    assert s[|a|] == '_';
    assert forall i :: 0 <= i < k ==> s[0..k][i] == s[i];
    assert s[..k] == a && s[k + 1..] == rest;
  }

  function Join(parts: seq<string>): string
    requires parts != []
  {
    if |parts| == 1 then parts[0] else parts[0] + "_" + Join(parts[1..])
  }

  predicate NoBars(fields: seq<string>, n: nat) {
    forall i :: 0 <= i < |fields| && i < n ==> '_' !in fields[i]
  }

  lemma {:induction false} SplitJoined(parts: seq<string>)
    requires parts != [] && NoBars(parts, |parts| - 1)
    ensures SplitN(Join(parts), |parts|) == parts
  {
    if |parts| > 1 {
      var rest := parts[1..];
      assert parts == [parts[0]] + rest;
      SplitHead(parts[0], Join(rest), |parts|);
      SplitJoined(rest);
    }
  }

  // ---------- encode and parse ----------

  /** The rank and id that stand for a place in the printed form. */
  function Shown<R>(p: Place<R>, unset: R, zero: R): (R, string) {
    if p.done then (zero, DONE_ID) else if p.ok then (p.rank, p.id) else (unset, UNSET_ID)
  }

  /** The eight fields of the printed form. */
  function Fields(snap: Int64, m: (int, string), s: (Int64, string), g: (int, string)): seq<string> {
    ["v2", PrintInt(snap), PrintMicros(m.0), m.1, PrintInt(s.0), s.1, PrintMicros(g.0), g.1]
  }

  function Encode(c: Cursor, snapshot: Int64): string {
    Join(Fields(snapshot, Shown(c.main, -MILLION, 0), Shown(c.small, -1, 0), Shown(c.gen, -MILLION, 0)))
  }

  function ReadPlace(rank: int, id: string): Place<int> {
    if id == DONE_ID then Place(0, "", false, true)
    else if id != UNSET_ID && rank >= 0 then Place(rank, id, true, false)
    else BLANK
  }

  function ReadNano(rank: Int64, id: string): Place<Int64> {
    if id == DONE_ID then Place(0, "", false, true)
    else if id != UNSET_ID && rank >= 0 then Place(rank, id, true, false)
    else BLANK_NANO
  }

  /** The cursor from its fields: `None` if a number is damaged. */
  function Assemble(snap: Option<Int64>, m: Option<int>, mId: string, s: Option<Int64>, sId: string,
                    g: Option<int>, gId: string)
    : Option<(Cursor, Int64)>
  {
    if snap.None? || m.None? || s.None? || g.None? then None
    else Some((Cursor(ReadPlace(m.value, mId), ReadNano(s.value, sId), ReadPlace(g.value, gId)), snap.value))
  }

  /** `None` is the result for a cursor of another version or a damaged one. */
  function Parse(raw: string): Option<(Cursor, Int64)> {
    var parts := SplitN(raw, 8);
    if |parts| != 8 || parts[0] != "v2" then None
    else
      Assemble(ParseInt(parts[1]), ParseMicros(parts[2]), parts[3], ParseInt(parts[4]), parts[5],
               ParseMicros(parts[6]), parts[7])
  }

  /** `Done` wins over a place; an unset stream has no place. */
  function Normal<R>(p: Place<R>, zero: R): Place<R> {
    if p.done then Place(zero, "", false, true)
    else if p.ok then Place(p.rank, p.id, true, false)
    else Place(zero, "", false, false)
  }

  function NormalCursor(c: Cursor): Cursor {
    Cursor(Normal(c.main, 0), Normal(c.small, 0), Normal(c.gen, 0))
  }

  predicate Printable(rank: int, id: string) {
    rank >= 0 && id != DONE_ID && id != UNSET_ID
  }

  /** What survives printing: ranks that are not negative, ids that are not a marker, and no `_` in
      the ids that have another field behind them. */
  predicate Survives(c: Cursor) {
    && (c.main.ok && !c.main.done ==> Printable(c.main.rank, c.main.id) && '_' !in c.main.id)
    && (c.small.ok && !c.small.done ==> Printable(c.small.rank, c.small.id) && '_' !in c.small.id)
    && (c.gen.ok && !c.gen.done ==> Printable(c.gen.rank, c.gen.id))
  }

  lemma DigitsHaveNoBar(s: string)
    requires AllDigits(s)
    ensures '_' !in s
  {
  }

  lemma NumbersHaveNoBar(x: int)
    ensures '_' !in PrintInt(x) && '_' !in PrintMicros(x)
  {
    var a := if x < 0 then -x else x;
    MillionHasSixZeros();
    DigitsHaveNoBar(Digits(a));
    DigitsHaveNoBar(Digits(a / MILLION));
    DigitsHaveNoBar(Padded(a % MILLION, 6));
  }

  lemma NoBarsInFields(a: string, b: string, c: string, d: string, e: string, f: string, g: string, h: string)
    requires '_' !in a && '_' !in b && '_' !in c && '_' !in d && '_' !in e && '_' !in f && '_' !in g
    ensures NoBars([a, b, c, d, e, f, g, h], 7)
  {
  }

  lemma FieldsHaveNoBar(snap: Int64, m: (int, string), s: (Int64, string), g: (int, string))
    requires '_' !in m.1 && '_' !in s.1
    ensures NoBars(Fields(snap, m, s, g), 7)
  {
    NumbersHaveNoBar(snap);
    NumbersHaveNoBar(m.0);
    NumbersHaveNoBar(s.0);
    NumbersHaveNoBar(g.0);
    NoBarsInFields("v2", PrintInt(snap), PrintMicros(m.0), m.1, PrintInt(s.0), s.1, PrintMicros(g.0), g.1);
  }

  lemma ParseTexts(raw: string, parts: seq<string>)
    requires SplitN(raw, 8) == parts && |parts| == 8 && parts[0] == "v2"
    ensures Parse(raw) == Assemble(ParseInt(parts[1]), ParseMicros(parts[2]), parts[3], ParseInt(parts[4]), parts[5],
                                   ParseMicros(parts[6]), parts[7])
  {
  }

  lemma ParsePrinted(snap: Int64, m: (int, string), s: (Int64, string), g: (int, string))
    requires '_' !in m.1 && '_' !in s.1
    ensures Parse(Join(Fields(snap, m, s, g)))
         == Some((Cursor(ReadPlace(m.0, m.1), ReadNano(s.0, s.1), ReadPlace(g.0, g.1)), snap))
  {
    FieldsHaveNoBar(snap, m, s, g);
    SplitJoined(Fields(snap, m, s, g));
    ParseTexts(Join(Fields(snap, m, s, g)), Fields(snap, m, s, g));
    ParsePrintedInt(snap);
    ParsePrintedMicros(m.0);
    ParsePrintedInt(s.0);
    ParsePrintedMicros(g.0);
  }

  /** Whatever text is parsed, the cursor is one that survives printing and is already normal. */
  lemma ParsedSurvives(raw: string)
    ensures Parse(raw).Some? ==> Survives(Parse(raw).value.0) && NormalCursor(Parse(raw).value.0) == Parse(raw).value.0
  {
    if Parse(raw).Some? {
      var parts := SplitN(raw, 8);
      assert '_' !in parts[3] && '_' !in parts[5];
      ReadIsNormal(ParseMicros(parts[2]).value, ParseInt(parts[4]).value, parts[3]);
      ReadIsNormal(ParseMicros(parts[2]).value, ParseInt(parts[4]).value, parts[5]);
      ReadIsNormal(ParseMicros(parts[6]).value, ParseInt(parts[4]).value, parts[7]);
    }
  }

  lemma ReadIsNormal(rank: int, nano: Int64, id: string)
    ensures var p, q := ReadPlace(rank, id), ReadNano(nano, id);
            && Normal(p, 0) == p && (p.ok && !p.done ==> p.id == id && Printable(p.rank, id))
            && Normal(q, 0) == q && (q.ok && !q.done ==> q.id == id && Printable(q.rank, id))
  {
  }

  /** Parsing a printed cursor gives back the snapshot and the normalised cursor, exactly for the
      cursors that survive printing. */
  lemma RoundTrip(c: Cursor, snapshot: Int64)
    ensures Parse(Encode(c, snapshot)) == Some((NormalCursor(c), snapshot)) <==> Survives(c)
  {
    if Survives(c) {
      ShownIsRead(c);
      ParsePrinted(snapshot, Shown(c.main, -MILLION, 0), Shown(c.small, -1, 0), Shown(c.gen, -MILLION, 0));
    } else if Parse(Encode(c, snapshot)) == Some((NormalCursor(c), snapshot)) {
      ParsedSurvives(Encode(c, snapshot));
    }
  }

  lemma ShownIsRead(c: Cursor)
    requires Survives(c)
    ensures var m, s, g := Shown(c.main, -MILLION, 0), Shown(c.small, -1, 0), Shown(c.gen, -MILLION, 0);
            && Cursor(ReadPlace(m.0, m.1), ReadNano(s.0, s.1), ReadPlace(g.0, g.1)) == NormalCursor(c)
            && '_' !in m.1 && '_' !in s.1
  {
  }

  /** A cursor that came out of a text prints to a text that gives it back, and printing that again
      changes nothing. */
  lemma ParsedIsStable(raw: string)
    ensures Parse(raw).Some? ==> Parse(Encode(Parse(raw).value.0, Parse(raw).value.1)) == Parse(raw)
  {
    ParsedSurvives(raw);
    if Parse(raw).Some? { RoundTrip(Parse(raw).value.0, Parse(raw).value.1); }
  }

  /** Encode, parse, encode: the second text is the first. */
  lemma EncodeIsStable(c: Cursor, snapshot: Int64)
    requires Survives(c)
    ensures Parse(Encode(c, snapshot)).Some?
    ensures var (c', snap') := Parse(Encode(c, snapshot)).value; Encode(c', snap') == Encode(c, snapshot)
  {
    RoundTrip(c, snapshot);
  }

  /** A main score below zero loses the place of the main stream: the text parses, and the stream starts over. */
  lemma NegativeScoreStartsOver(c: Cursor, snapshot: Int64)
    requires c.main.ok && !c.main.done && c.main.rank < 0 && '_' !in c.main.id && c.main.id != DONE_ID
    requires Survives(c.(main := BLANK))
    ensures Parse(Encode(c, snapshot)) == Some((NormalCursor(c.(main := BLANK)), snapshot))
  {
    ParsePrinted(snapshot, Shown(c.main, -MILLION, 0), Shown(c.small, -1, 0), Shown(c.gen, -MILLION, 0));
  }

  // ---------- which texts are accepted ----------

  /** The text has eight fields, the first of them the version, and four of them numbers. */
  ghost predicate IsCursorText(raw: string, fields: seq<string>) {
    && |fields| == 8 && raw == Join(fields) && NoBars(fields, 7) && fields[0] == "v2"
    && ParseInt(fields[1]).Some? && ParseMicros(fields[2]).Some? && ParseInt(fields[4]).Some?
    && ParseMicros(fields[6]).Some?
  }

  lemma {:induction false} JoinSplit(s: string, n: nat)
    requires n >= 1
    ensures Join(SplitN(s, n)) == s
    decreases n
  {
    var k := FirstBar(s, 0);
    if n > 1 && k < |s| {
      JoinSplit(s[k + 1..], n - 1);
      assert s == s[..k] + "_" + s[k + 1..];
    }
  }

  lemma JoinedStartsWithFirst(fields: seq<string>)
    requires |fields| >= 2
    ensures fields[0] + "_" <= Join(fields)
  {
  }

  lemma AcceptedIsText(raw: string, fields: seq<string>)
    ensures Parse(raw).Some? && fields == SplitN(raw, 8) ==> IsCursorText(raw, fields)
  {
    JoinSplit(raw, 8);
  }

  lemma TextIsAccepted(raw: string, fields: seq<string>)
    requires IsCursorText(raw, fields)
    ensures Parse(raw).Some? && "v2_" <= raw
  {
    SplitJoined(fields);
    ParseTexts(raw, fields);
    JoinedStartsWithFirst(fields);
  }

  /** Exactly the texts of this form are accepted; no text of another version is. */
  lemma AcceptedTexts(raw: string)
    ensures Parse(raw).Some? <==> exists fields :: IsCursorText(raw, fields)
    ensures Parse(raw).Some? ==> "v2_" <= raw
  {
    if Parse(raw).Some? { AcceptedIsText(raw, SplitN(raw, 8)); }
    if fields :| IsCursorText(raw, fields) { TextIsAccepted(raw, fields); }
  }

  lemma ZerosArePadded(d: nat, k: nat, zeros: string)
    requires d < 10 && |zeros| == k && forall i :: 0 <= i < k ==> zeros[i] == '0'
    ensures d * Pow10(k) < Pow10(k + 1) && Padded(d * Pow10(k), k + 1) == [DigitChar(d)] + zeros
  {
    if k == 0 {
      assert Padded(d, 1) == Padded(0, 0) + [DigitChar(d)];
    } else {
      ZerosArePadded(d, k - 1, zeros[..k - 1]);
      var m := d * Pow10(k - 1);
      assert d * Pow10(k) == 10 * m;
      assert (10 * m) / 10 == m && (10 * m) % 10 == 0;
      assert zeros == zeros[..k - 1] + "0";
    }
  }

  /** Decimal digits. */
  lemma SampleIntegers()
    ensures PrintInt(42) == "42" && PrintInt(-7) == "-7"
  {
    assert Digits(42) == Digits(4) + "2";
  }

  /** A score of `w` and `d` tenths shows six digits behind the point. */
  lemma TenthsText(w: nat, d: nat)
    requires w < 10 && d < 10
    ensures MicrosText(w * MILLION + d * Pow10(5)) == [DigitChar(w)] + "." + ([DigitChar(d)] + "00000")
  {
    MillionHasSixZeros();
    ZerosArePadded(d, 5, "00000");
    WholePart(w, d * Pow10(5));
    assert Digits(w) == [DigitChar(w)];
  }

  lemma WholePart(w: nat, x: nat)
    requires x < MILLION
    ensures (w * MILLION + x) / MILLION == w && (w * MILLION + x) % MILLION == x
  {
  }

  /** The text to the letter: version, snapshot, then rank and id of the main, the small and the general stream; a
      stream that is done shows `0` and `!`, one that has not started `-1` and `-`. */
  lemma EncodedText(c: Cursor, snapshot: Int64)
    ensures var m := if c.main.done then 0 else if c.main.ok then c.main.rank else -1_000_000;
            var s := if c.small.done then 0 else if c.small.ok then c.small.rank else -1;
            var g := if c.gen.done then 0 else if c.gen.ok then c.gen.rank else -1_000_000;
            Encode(c, snapshot) ==
            "v2" + "_" + (PrintInt(snapshot) + "_" + (PrintMicros(m) + "_" + (IdText(c.main) + "_" +
            (PrintInt(s) + "_" + (IdText(c.small) + "_" + (PrintMicros(g) + "_" + IdText(c.gen)))))))
  {
    var m, s, g := Shown(c.main, -MILLION, 0), Shown(c.small, -1, 0), Shown(c.gen, -MILLION, 0);
    JoinEight("v2", PrintInt(snapshot), PrintMicros(m.0), m.1, PrintInt(s.0), s.1, PrintMicros(g.0), g.1);
  }

  function IdText<R>(p: Place<R>): string { if p.done then "!" else if p.ok then p.id else "-" }

  lemma JoinMore(a: string, rest: seq<string>)
    requires rest != []
    ensures Join([a] + rest) == a + "_" + Join(rest)
  {
    assert ([a] + rest)[1..] == rest;
  }

  lemma JoinEight(a: string, b: string, c: string, d: string, e: string, f: string, g: string, h: string)
    ensures Join([a, b, c, d, e, f, g, h])
         == a + "_" + (b + "_" + (c + "_" + (d + "_" + (e + "_" + (f + "_" + (g + "_" + h))))))
  {
    JoinMore(g, [h]);
    JoinMore(f, [g, h]);
    JoinMore(e, [f, g, h]);
    JoinMore(d, [e, f, g, h]);
    JoinMore(c, [d, e, f, g, h]);
    JoinMore(b, [c, d, e, f, g, h]);
    JoinMore(a, [b, c, d, e, f, g, h]);
    assert [a, b, c, d, e, f, g, h] == [a] + [b, c, d, e, f, g, h];
    assert [b, c, d, e, f, g, h] == [b] + [c, d, e, f, g, h];
    assert [c, d, e, f, g, h] == [c] + [d, e, f, g, h];
    assert [d, e, f, g, h] == [d] + [e, f, g, h];
    assert [e, f, g, h] == [e] + [f, g, h];
    assert [f, g, h] == [f] + [g, h];
    assert [g, h] == [g] + [h];
  }
}
