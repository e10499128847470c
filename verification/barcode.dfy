/** Scanned codes: normalization, the GS1 check digit, and GS1 element strings. */
module Barcode {
  import opened Outcome
  import opened Allocation

  /** FNC1, the group separator between variable-length fields. */
  const GS: char := 29 as char

  predicate IsDigit(c: char) { '0' <= c <= '9' }

  predicate AllDigits(s: string) { forall i :: 0 <= i < |s| ==> IsDigit(s[i]) }

  // ---- Normalization ----

  predicate IsSpace(c: char) { c == ' ' || 9 as char <= c <= 13 as char }

  predicate IsControl(c: char) { (c < ' ' && c != GS) || c == 127 as char }

  function TrimLeft(s: string): string { if s != "" && IsSpace(s[0]) then TrimLeft(s[1..]) else s }

  function TrimRight(s: string): string { if s != "" && IsSpace(s[|s| - 1]) then TrimRight(s[..|s| - 1]) else s }

  function Trim(s: string): string { TrimRight(TrimLeft(s)) }

  function DropControls(s: string): string {
    if s == "" then "" else if IsControl(s[0]) then DropControls(s[1..]) else [s[0]] + DropControls(s[1..])
  }

  function UpperChar(c: char): char {
    if 'a' <= c <= 'z' then ((c as int) - 32) as char else c
  }

  function Upper(s: string): (r: string)
    ensures |r| == |s| && forall i :: 0 <= i < |s| ==> r[i] == UpperChar(s[i])
  {
    if s == "" then "" else [UpperChar(s[0])] + Upper(s[1..])
  }

  predicate IsLetter(c: char) { 'A' <= UpperChar(c) <= 'Z' }

  /** An AIM symbology identifier such as ]C1. */
  predicate HasAim(s: string) { |s| >= 3 && s[0] == ']' && IsLetter(s[1]) && (IsLetter(s[2]) || IsDigit(s[2])) }

  function ZeroPad(s: string, n: nat): string
    decreases n - |s|
  {
    if |s| >= n then s else ZeroPad("0" + s, n)
  }

  datatype Normalized = Normalized(code: string, symbology: Option<string>)

  /** The code in canonical form, and the identifier as the scanner sent it. */
  function Normalize(raw: string): Normalized {
    var s := Trim(raw);
    var body := Upper(Trim(DropControls(if HasAim(s) then s[3..] else s)));
    var code := if AllDigits(body) && 12 <= |body| <= 14 then ZeroPad(body, 14) else body;
    Normalized(code, if HasAim(s) then Some(s[..3]) else None)
  }

  // ---- The check digit ----

  function Digit(c: char): int { (c as int) - 48 }

  /** Weights 3, 1, 3, 1, ... counted from the right. */
  function Weight(k: nat): int { if k % 2 == 0 then 3 else 1 }

  function Weighted(body: string): int {
    if body == "" then 0 else Weight(|body| - 1) * Digit(body[0]) + Weighted(body[1..])
  }

  predicate CheckDigitValid(s: string) {
    && AllDigits(s) && |s| >= 8
    && (10 - Weighted(s[..|s| - 1]) % 10) % 10 == Digit(s[|s| - 1])
  }

  /** The loop walks the body from its right end. */
  method GtinCheckDigitValid(digits: string) returns (ok: bool)
    ensures ok <==> CheckDigitValid(digits)
  {
    if !AllDigits(digits) || |digits| < 8 { return false; }
    var body := digits[..|digits| - 1];
    var n, sum, i := |body|, 0, 0;
    while i < n
      invariant 0 <= i <= n && sum == Weighted(body[n - i..])
    {
      var d := Digit(body[n - 1 - i]);
      assert body[n - i - 1..][1..] == body[n - i..];
      sum := sum + (if i % 2 == 0 then d * 3 else d);
      i := i + 1;
    }
    assert body[0..] == body;
    return (10 - sum % 10) % 10 == Digit(digits[|digits| - 1]);
  }

  /** Each digit by its place from the right: the check digit once, the one before it three times, and so on. */
  function ScanTotal(s: string, n: nat): int
    requires n <= |s|
  {
    if n == 0 then 0
    else ScanTotal(s, n - 1) + Digit(s[|s| - n]) * (if n % 2 == 0 then 3 else 1)
  }

  lemma {:induction false} ScanIsWeighted(s: string, n: nat)
    requires 0 < n <= |s|
    ensures ScanTotal(s, n) == Digit(s[|s| - 1]) + Weighted(s[|s| - n..|s| - 1])
  {
    if n > 1 {
      ScanIsWeighted(s, n - 1);
      var body := s[|s| - n..|s| - 1];
      assert body[1..] == s[|s| - n + 1..|s| - 1];
    } else {
      assert s[|s| - 1..|s| - 1] == "";
      assert ScanTotal(s, 0) == 0;
    }
  }

  /** The check as the standard puts it: of at least eight digits, weighted 1, 3, 1, 3 from the right, the
      total is a multiple of ten. */
  lemma CheckExact(s: string)
    ensures CheckDigitValid(s) <==>
              |s| >= 8 && (forall i :: 0 <= i < |s| ==> '0' <= s[i] <= '9') && ScanTotal(s, |s|) % 10 == 0
  {
    if |s| >= 8 && AllDigits(s) {
      ScanIsWeighted(s, |s|);
      assert s[|s| - |s|..|s| - 1] == s[..|s| - 1];
      var d := Digit(s[|s| - 1]);
      assert IsDigit(s[|s| - 1]) && 0 <= d <= 9;
      TensComplement(Weighted(s[..|s| - 1]), d);
    }
  }

  lemma TensComplement(w: int, d: int)
    requires 0 <= d <= 9
    ensures (10 - w % 10) % 10 == d <==> (d + w) % 10 == 0
  {
    var q, r := w / 10, w % 10;
    assert w == 10 * q + r && (d + w) % 10 == (d + r) % 10 by { SameRemainder(d + r, q); }
  }

  lemma SameRemainder(x: int, q: int)
    ensures (x + 10 * q) % 10 == x % 10
  {
  }

  lemma LeadingZero(body: string)
    ensures Weighted("0" + body) == Weighted(body)
  {
    assert ("0" + body)[1..] == body;
  }

  /** UPC-A, EAN-13 and GTIN-14 of one article agree: leading zeros do not change the check. */
  lemma ZeroPadKeepsCheck(s: string)
    requires |s| >= 8
    ensures CheckDigitValid("0" + s) <==> CheckDigitValid(s)
  {
    var z := "0" + s;
    assert z[..|z| - 1] == "0" + s[..|s| - 1];
    LeadingZero(s[..|s| - 1]);
    hide Weighted;
    assert AllDigits(z) <==> AllDigits(s) by { assert forall i :: 0 <= i < |s| ==> z[i + 1] == s[i]; }
    hide AllDigits;
  }

  lemma {:induction false} WeightedChange(body: string, i: nat, c: char)
    requires i < |body|
    ensures Weighted(body[i := c]) == Weighted(body) + Weight(|body| - 1 - i) * (Digit(c) - Digit(body[i]))
  {
    if i == 0 {
      assert body[0 := c][1..] == body[1..];
    } else {
      assert body[i := c][1..] == body[1..][i - 1 := c];
      WeightedChange(body[1..], i - 1, c);
    }
  }

  lemma MisreadShows(sum: int, w: int, d: int)
    requires (w == 1 || w == 3) && -9 <= d <= 9 && d != 0
    ensures (sum + w * d) % 10 != sum % 10
  {
    var a, b := sum / 10, (sum + w * d) / 10;
    assert sum == 10 * a + sum % 10 && sum + w * d == 10 * b + (sum + w * d) % 10;
  }

  lemma ComplementsDiffer(a: int, b: int)
    requires 0 <= a < 10 && 0 <= b < 10 && a != b
    ensures (10 - a) % 10 != (10 - b) % 10
  {
  }

  lemma CheckChanges(body: string, i: nat, c: char)
    requires i < |body| && IsDigit(c) && IsDigit(body[i]) && c != body[i]
    ensures (10 - Weighted(body[i := c]) % 10) % 10 != (10 - Weighted(body) % 10) % 10
  {
    WeightedChange(body, i, c);
    var a, b := Weighted(body), Weighted(body[i := c]);
    var w, d := Weight(|body| - 1 - i), Digit(c) - Digit(body[i]);
    assert b == a + w * d && (w == 1 || w == 3) && -9 <= d <= 9 && d != 0;
    hide *;
    MisreadShows(a, w, d);
    ComplementsDiffer(b % 10, a % 10);
  }

  /** Any single misread digit is caught. */
  lemma SingleChangeRejected(s: string, i: nat, c: char)
    requires CheckDigitValid(s) && i < |s| && IsDigit(c) && c != s[i]
    ensures !CheckDigitValid(s[i := c])
  {
    hide Weighted;
    var n := |s| - 1;
    var body := s[..n];
    assert IsDigit(s[i]);
    if i < n {
      assert s[i := c][..n] == body[i := c] && s[i := c][n] == s[n];
      CheckChanges(body, i, c);
    } else {
      assert s[i := c][..n] == body && s[i := c][n] == c;
    }
  }

  // ---- Fields ----

  function FixedLength(ai: string): Option<nat> {
    if ai == "00" then Some(18)
    else if ai == "01" || ai == "02" then Some(14)
    else if ai == "11" || ai == "13" || ai == "15" || ai == "16" || ai == "17" then Some(6)
    else None
  }

  function VariableMax(ai: string): Option<nat> {
    if ai == "10" || ai == "21" then Some(20) else if ai == "30" || ai == "37" then Some(8) else None
  }

  function Cut(s: string, a: nat, b: nat): string
    requires a <= b
  {
    s[Min(a, |s|)..Min(b, |s|)]
  }

  function IndexOf(s: string, c: char, from: nat): (r: nat)
    ensures r <= |s| && (from <= |s| ==> from <= r)
    decreases |s| - from
  {
    if from >= |s| then |s| else if s[from] == c then from else IndexOf(s, c, from + 1)
  }

  /** The index loop over a raw element string. None is a malformed fixed field; an unknown AI ends it. */
  function ParseFrom(code: string, i: nat, fields: map<string, string>): Option<map<string, string>>
    decreases |code| - i
  {
    if i >= |code| then Some(fields)
    else if code[i] == GS then ParseFrom(code, i + 1, fields)
    else
      var ai := Cut(code, i, i + 2);
      match FixedLength(ai)
      case Some(n) =>
        var value := Cut(code, i + 2, i + 2 + n);
        if |value| != n || !AllDigits(value) then None else ParseFrom(code, i + 2 + n, fields[ai := value])
      case None =>
        match VariableMax(ai)
        case None => Some(fields)
        case Some(max) =>
          var end := IndexOf(code, GS, i + 2);
          ParseFrom(code, end, fields[ai := Cut(code, i + 2, Min(end, i + 2 + max))])
  }

  method ParseRaw(code: string) returns (r: Option<map<string, string>>)
    ensures r == ParseFrom(code, 0, map[])
  {
    var fields: map<string, string> := map[];
    var i := 0;
    while i < |code|
      invariant ParseFrom(code, 0, map[]) == ParseFrom(code, i, fields)
      decreases |code| - i
    {
      if code[i] == GS {
        i := i + 1;
        continue;
      }
      var ai := Cut(code, i, i + 2);
      var fixed := FixedLength(ai);
      if fixed.Some? {
        var value := Cut(code, i + 2, i + 2 + fixed.value);
        if |value| != fixed.value || !AllDigits(value) { return None; }
        fields := fields[ai := value];
        i := i + 2 + fixed.value;
        continue;
      }
      var max := VariableMax(ai);
      if max.None? { return Some(fields); }
      var end := IndexOf(code, GS, i + 2);
      fields := fields[ai := Cut(code, i + 2, Min(end, i + 2 + max.value))];
      i := end;
    }
    return Some(fields);
  }

  function DigitRun(s: string, i: nat): (n: nat)
    ensures i <= |s| ==> i + n <= |s|
    decreases |s| - i
  {
    if i < |s| && IsDigit(s[i]) then 1 + DigitRun(s, i + 1) else 0
  }

  function DropGs(s: string): string {
    if s == "" then "" else if s[0] == GS then DropGs(s[1..]) else [s[0]] + DropGs(s[1..])
  }

  /** The printed form: every (AI) of two to four digits, with what follows up to the next parenthesis. */
  function ScanFrom(code: string, i: nat, fields: map<string, string>): map<string, string>
    decreases |code| - i
  {
    if i >= |code| then fields
    else
      var n := DigitRun(code, i + 1);
      if code[i] == '(' && 2 <= n <= 4 && i + 1 + n < |code| && code[i + 1 + n] == ')' then
        var end := IndexOf(code, '(', i + 2 + n);
        ScanFrom(code, end, fields[code[i + 1..i + 1 + n] := DropGs(code[i + 2 + n..end])])
      else ScanFrom(code, i + 1, fields)
  }

  // ---- The data ----

  datatype Date = Date(year: nat, month: nat, day: nat)

  function DaysIn(year: nat, month: nat): nat {
    if month == 2 then (if year % 4 == 0 then 29 else 28)
    else if month == 4 || month == 6 || month == 9 || month == 11 then 30 else 31
  }

  function Number(s: string): int { if s == "" then 0 else 10 * Number(s[..|s| - 1]) + Digit(s[|s| - 1]) }

  function Gs1Date(s: string): (r: Option<Date>)
    ensures r.Some? ==>
              && 2000 <= r.value.year <= 2099 && 1 <= r.value.month <= 12
              && 1 <= r.value.day <= DaysIn(r.value.year, r.value.month)
  {
    if |s| != 6 || !AllDigits(s) then None
    else
      assert s[..2][..1] == s[..1] && s[2..4][..1] == s[2..3] && s[4..6][..1] == s[4..5];
      TwoDigits(s[..2]);
      TwoDigits(s[2..4]);
      TwoDigits(s[4..6]);
      var year, month, day := 2000 + Number(s[..2]), Number(s[2..4]), Number(s[4..6]);
      if month < 1 || month > 12 then None
      else if day == 0 then Some(Date(year, month, DaysIn(year, month)))
      else if day > DaysIn(year, month) then None
      else Some(Date(year, month, day))
  }

  lemma TwoDigits(s: string)
    requires |s| == 2 && AllDigits(s)
    ensures 0 <= Number(s) <= 99
  {
    assert s[..1][..0] == "";
    assert Number(s[..1]) == 10 * Number("") + Digit(s[0]);
  }

  /** A number below a hundred as two digits. */
  function Two(n: nat): string
    requires n < 100
  {
    [(48 + n / 10) as char, (48 + n % 10) as char]
  }

  lemma TwoReadsBack(n: nat)
    requires n < 100
    ensures |Two(n)| == 2 && AllDigits(Two(n)) && Number(Two(n)) == n
  {
    var t := Two(n);
    assert t[..1] == [t[0]] && t[..1][..0] == "";
    assert Number(t[..1]) == 10 * Number("") + Digit(t[0]);
  }

  /** Six digits YYMMDD are read as the day they name, day 00 as the last of its month, and not at all if the
      calendar has no such day. */
  lemma DateReadsBack(yy: nat, month: nat, day: nat)
    requires yy < 100 && month < 100 && day < 100
    ensures var year := 2000 + yy;
            var leap := year % 4 == 0 && (year % 100 != 0 || year % 400 == 0);
            var days := if month in {4, 6, 9, 11} then 30 else if month != 2 then 31 else if leap then 29 else 28;
            Gs1Date(Two(yy) + Two(month) + Two(day))
            == if month == 0 || month > 12 || day > days then None
               else Some(Date(year, month, if day == 0 then days else day))
  {
    var s := Two(yy) + Two(month) + Two(day);
    TwoReadsBack(yy);
    TwoReadsBack(month);
    TwoReadsBack(day);
    assert s[..2] == Two(yy) && s[2..4] == Two(month) && s[4..6] == Two(day);
    assert AllDigits(s);
    hide Number, AllDigits, Two;
  }

  datatype Gs1Data = Gs1Data(gtin: Option<string>, lot: Option<string>, expiry: Option<Date>, bestBefore: Option<Date>,
                             serial: Option<string>)

  function Get(fields: map<string, string>, ai: string): Option<string> {
    if ai in fields then Some(fields[ai]) else None
  }

  function DateOf(field: Option<string>): Option<Date> { if field.Some? then Gs1Date(field.value) else None }

  function ToGs1Data(fields: map<string, string>): Option<Gs1Data> {
    var gtin := if "01" in fields then Get(fields, "01") else Get(fields, "02");
    if gtin.Some? && !CheckDigitValid(gtin.value) then None
    else if gtin.None? && (Get(fields, "10").None? || Get(fields, "10") == Some("")) then None
    else Some(Gs1Data(gtin, Get(fields, "10"), DateOf(Get(fields, "17")), DateOf(Get(fields, "15")), Get(fields, "21")))
  }

  predicate DeclaredGs1(n: Normalized) {
    (n.symbology.Some? && Upper(n.symbology.value) in {"]C1", "]E0", "]D2", "]Q3"}) || GS in n.code
  }

  predicate LooksGs1(code: string) {
    |code| >= 16 && (code[..2] == "01" || code[..2] == "02") && AllDigits(code[2..16])
  }

  function ParseGs1(raw: string): Option<Gs1Data> {
    var n := Normalize(raw);
    if n.code != "" && n.code[0] == '(' then
      var fields := ScanFrom(n.code, 0, map[]);
      if fields == map[] then None else ToGs1Data(fields)
    else if !DeclaredGs1(n) && !LooksGs1(n.code) then None
    else match ParseFrom(n.code, 0, map[])
      case None => None
      case Some(fields) => if fields == map[] then None else ToGs1Data(fields)
  }

  // ---- What a label says ----

  datatype Field = Field(ai: string, value: string)

  /** Upper-case printable characters without the parenthesis the printed form uses. */
  predicate Plain(c: char) { '!' <= c <= '~' && c != '(' && !('a' <= c <= 'z') }

  predicate FieldOk(f: Field) {
    && (forall i :: 0 <= i < |f.value| ==> Plain(f.value[i]))
    && (FixedLength(f.ai).Some? || VariableMax(f.ai).Some?)
    && (FixedLength(f.ai).Some? ==> |f.value| == FixedLength(f.ai).value && AllDigits(f.value))
    && (VariableMax(f.ai).Some? ==> |f.value| <= VariableMax(f.ai).value)
  }

  predicate FieldsOk(fs: seq<Field>) { forall i :: 0 <= i < |fs| ==> FieldOk(fs[i]) }

  function PutAll(fields: map<string, string>, fs: seq<Field>): map<string, string>
    decreases |fs|
  {
    if fs == [] then fields else PutAll(fields[fs[0].ai := fs[0].value], fs[1..])
  }

  /** As a printer encodes it: a separator after each variable field but the last. */
  function EncodeRaw(fs: seq<Field>): string {
    if fs == [] then ""
    else fs[0].ai + fs[0].value + (if VariableMax(fs[0].ai).Some? && |fs| > 1 then [GS] else "") + EncodeRaw(fs[1..])
  }

  function EncodePrinted(fs: seq<Field>): string {
    if fs == [] then "" else "(" + fs[0].ai + ")" + fs[0].value + EncodePrinted(fs[1..])
  }

  lemma {:induction false} IndexOfIs(s: string, c: char, from: nat, at: nat)
    requires from <= at <= |s| && (forall k :: from <= k < at ==> s[k] != c) && (at < |s| ==> s[at] == c)
    ensures IndexOf(s, c, from) == at
    decreases at - from
  {
    if from < at { IndexOfIs(s, c, from + 1, at); }
  }

  lemma AiShape(ai: string)
    requires FixedLength(ai).Some? || VariableMax(ai).Some?
    ensures |ai| == 2 && AllDigits(ai) && !(FixedLength(ai).Some? && VariableMax(ai).Some?)
  {
  }

  /** A prefix of what is left of the code stands at its place. */
  lemma HeadOf(code: string, i: nat, head: string, tail: string)
    requires i <= |code| && code[i..] == head + tail
    ensures i + |head| <= |code| && code[i..i + |head|] == head && code[i + |head|..] == tail
    ensures forall k :: 0 <= k < |head| ==> code[i + k] == head[k]
  {
    assert |code[i..]| == |head| + |tail|;
    forall k | 0 <= k < |head| ensures code[i + k] == head[k] { assert code[i..][k] == head[k]; }
    assert code[i + |head|..] == code[i..][|head|..];
  }

  lemma {:induction false} NoGs(s: string)
    requires forall i :: 0 <= i < |s| ==> s[i] != GS
    ensures DropGs(s) == s
  {
    if s != "" { NoGs(s[1..]); }
  }

  function Separator(fs: seq<Field>): string
    requires fs != []
  {
    if VariableMax(fs[0].ai).Some? && |fs| > 1 then [GS] else ""
  }

  lemma RawShape(fs: seq<Field>)
    requires fs != []
    ensures EncodeRaw(fs) == fs[0].ai + (fs[0].value + (Separator(fs) + EncodeRaw(fs[1..])))
  {
  }

  lemma NoSeparator(code: string, from: nat, f: Field)
    requires FieldOk(f) && from + |f.value| <= |code|
    requires forall k :: 0 <= k < |f.value| ==> code[from + k] == f.value[k]
    ensures forall k :: from <= k < from + |f.value| ==> code[k] != GS
  {
    forall k | from <= k < from + |f.value| ensures code[k] != GS {
      assert code[from + (k - from)] == f.value[k - from];
    }
  }

  lemma CutIs(code: string, i: nat, head: string)
    requires i + |head| <= |code| && code[i..i + |head|] == head
    ensures Cut(code, i, i + |head|) == head
  {
  }

  /** Two pieces in a row. */
  lemma TwoHeads(code: string, i: nat, x: string, y: string, tail: string)
    requires i <= |code| && code[i..] == x + (y + tail)
    ensures i + |x| + |y| <= |code|
    ensures code[i..i + |x|] == x && code[i + |x|..i + |x| + |y|] == y && code[i + |x| + |y|..] == tail
    ensures forall k :: 0 <= k < |x| ==> code[i + k] == x[k]
    ensures forall k :: 0 <= k < |y| ==> code[i + |x| + k] == y[k]
  {
    HeadOf(code, i, x, y + tail);
    HeadOf(code, i + |x|, y, tail);
  }

  lemma AiIsNoSeparator(f: Field)
    requires FieldOk(f)
    ensures |f.ai| == 2 && f.ai[0] != GS
  {
    AiShape(f.ai);
  }

  lemma FirstOk(fs: seq<Field>)
    requires FieldsOk(fs) && fs != []
    ensures FieldOk(fs[0]) && FieldsOk(fs[1..])
  {
  }

  /** Where the pieces of the first field stand. */
  lemma RawHead(code: string, i: nat, fs: seq<Field>) returns (at: nat)
    requires FieldsOk(fs) && fs != [] && i <= |code| && code[i..] == EncodeRaw(fs)
    ensures at == i + 2 + |fs[0].value| <= |code|
    ensures Cut(code, i, i + 2) == fs[0].ai && code[i + 2..at] == fs[0].value && code[i] != GS
    ensures code[at..] == Separator(fs) + EncodeRaw(fs[1..])
    ensures forall k :: i + 2 <= k < at ==> code[k] != GS
  {
    hide *;
    var f := fs[0];
    FirstOk(fs);
    RawShape(fs);
    AiIsNoSeparator(f);
    TwoHeads(code, i, f.ai, f.value, Separator(fs) + EncodeRaw(fs[1..]));
    CutIs(code, i, f.ai);
    NoSeparator(code, i + 2, f);
    assert code[i + 0] == f.ai[0];
    at := i + 2 + |f.value|;
  }

  lemma FixedStep(code: string, i: nat, at: nat, f: Field, fields: map<string, string>)
    requires FieldOk(f) && FixedLength(f.ai).Some? && at == i + 2 + |f.value| <= |code|
    requires Cut(code, i, i + 2) == f.ai && code[i + 2..at] == f.value && code[i] != GS
    ensures ParseFrom(code, i, fields) == ParseFrom(code, at, fields[f.ai := f.value])
  {
    assert Cut(code, i + 2, i + 2 + |f.value|) == f.value;
  }

  lemma VariableStep(code: string, i: nat, at: nat, f: Field, fields: map<string, string>)
    requires FieldOk(f) && VariableMax(f.ai).Some? && at == i + 2 + |f.value| <= |code|
    requires Cut(code, i, i + 2) == f.ai && code[i + 2..at] == f.value && code[i] != GS
    requires (forall k :: i + 2 <= k < at ==> code[k] != GS) && (at < |code| ==> code[at] == GS)
    ensures ParseFrom(code, i, fields) == ParseFrom(code, at, fields[f.ai := f.value])
  {
    AiShape(f.ai);
    IndexOfIs(code, GS, i + 2, at);
    assert Cut(code, i + 2, Min(at, i + 2 + VariableMax(f.ai).value)) == f.value;
  }

  lemma SkipSeparator(code: string, at: nat, fields: map<string, string>)
    requires at < |code| && code[at] == GS
    ensures ParseFrom(code, at, fields) == ParseFrom(code, at + 1, fields)
  {
  }

  /** What follows the first field. */
  lemma RawTail(code: string, at: nat, fs: seq<Field>)
    requires fs != [] && at <= |code| && code[at..] == Separator(fs) + EncodeRaw(fs[1..])
    ensures VariableMax(fs[0].ai).None? ==> code[at..] == EncodeRaw(fs[1..])
    ensures VariableMax(fs[0].ai).Some? && |fs| > 1 ==>
            at < |code| && code[at] == GS && code[at + 1..] == EncodeRaw(fs[1..])
    ensures |fs| == 1 ==> at == |code|
  {
    var rest := EncodeRaw(fs[1..]);
    if |fs| == 1 {
      assert rest == "" && Separator(fs) == "";
    } else if VariableMax(fs[0].ai).Some? {
      HeadOf(code, at, [GS], rest);
      assert code[at + 0] == GS;
    }
  }

  lemma VariableThenSkip(code: string, i: nat, end: nat, f: Field, fields: map<string, string>)
    requires FieldOk(f) && VariableMax(f.ai).Some? && end == i + 2 + |f.value| < |code|
    requires Cut(code, i, i + 2) == f.ai && code[i + 2..end] == f.value && code[i] != GS
    requires (forall k :: i + 2 <= k < end ==> code[k] != GS) && code[end] == GS
    ensures ParseFrom(code, i, fields) == ParseFrom(code, end + 1, fields[f.ai := f.value])
  {
    VariableStep(code, i, end, f, fields);
    SkipSeparator(code, end, fields[f.ai := f.value]);
  }

  /** The first field ends at `end` and the next begins at `at`, past a separator if there is one. */
  lemma NextField(code: string, i: nat, fs: seq<Field>) returns (end: nat, at: nat)
    requires FieldsOk(fs) && fs != [] && i <= |code| && code[i..] == EncodeRaw(fs)
    ensures end == i + 2 + |fs[0].value| <= at <= |code| && code[at..] == EncodeRaw(fs[1..])
    ensures Cut(code, i, i + 2) == fs[0].ai && code[i + 2..end] == fs[0].value && code[i] != GS
    ensures forall k :: i + 2 <= k < end ==> code[k] != GS
    ensures FixedLength(fs[0].ai).Some? ==> at == end
    ensures VariableMax(fs[0].ai).Some? ==> (at == end == |code|) || (at == end + 1 && code[end] == GS)
  {
    AiShape(fs[0].ai) by { assert FieldOk(fs[0]); }
    end := RawHead(code, i, fs);
    RawTail(code, end, fs);
    at := if VariableMax(fs[0].ai).Some? && |fs| > 1 then end + 1 else end;
  }

  lemma RawStep(code: string, i: nat, end: nat, at: nat, f: Field, fields: map<string, string>)
    requires FieldOk(f) && end == i + 2 + |f.value| <= at <= |code|
    requires Cut(code, i, i + 2) == f.ai && code[i + 2..end] == f.value && code[i] != GS
    requires forall k :: i + 2 <= k < end ==> code[k] != GS
    requires FixedLength(f.ai).Some? ==> at == end
    requires VariableMax(f.ai).Some? ==> (at == end == |code|) || (at == end + 1 && code[end] == GS)
    ensures ParseFrom(code, i, fields) == ParseFrom(code, at, fields[f.ai := f.value])
  {
    hide ParseFrom;
    if FixedLength(f.ai).Some? {
      FixedStep(code, i, end, f, fields);
    } else if at == end {
      VariableStep(code, i, end, f, fields);
    } else {
      VariableThenSkip(code, i, end, f, fields);
    }
  }

  /** The raw loop reads back what was encoded, from any position. */
  lemma {:induction false} RawReadsBack(code: string, i: nat, fs: seq<Field>, fields: map<string, string>)
    requires FieldsOk(fs) && i <= |code| && code[i..] == EncodeRaw(fs)
    ensures ParseFrom(code, i, fields) == Some(PutAll(fields, fs))
    decreases |fs|
  {
    if fs != [] {
      var end, at := NextField(code, i, fs);
      RawStep(code, i, end, at, fs[0], fields);
      RawReadsBack(code, at, fs[1..], fields[fs[0].ai := fs[0].value]);
    }
  }

  lemma PrintedShape(fs: seq<Field>)
    requires fs != []
    ensures EncodePrinted(fs) == "(" + (fs[0].ai + (")" + (fs[0].value + EncodePrinted(fs[1..]))))
  {
  }

  lemma FourHeads(code: string, i: nat, a: char, x: string, b: char, y: string, tail: string)
    requires i <= |code| && code[i..] == [a] + (x + ([b] + (y + tail)))
    ensures i + 2 + |x| + |y| <= |code|
    ensures code[i] == a && code[i + 1..i + 1 + |x|] == x && code[i + 1 + |x|] == b
    ensures code[i + 2 + |x|..i + 2 + |x| + |y|] == y && code[i + 2 + |x| + |y|..] == tail
    ensures forall k :: 0 <= k < |y| ==> code[i + 2 + |x| + k] == y[k]
  {
    hide *;
    var rest := [b] + (y + tail);
    TwoHeads(code, i, [a], x, rest);
    assert code[i + 0] == [a][0];
    var j := i + 1 + |x|;
    TwoHeads(code, j, [b], y, tail);
    assert code[j + 0] == [b][0];
  }

  /** Where the pieces of the first printed field stand. */
  lemma PrintedHead(code: string, i: nat, fs: seq<Field>) returns (at: nat)
    requires FieldsOk(fs) && fs != [] && i <= |code| && code[i..] == EncodePrinted(fs)
    ensures at == i + 4 + |fs[0].value| <= |code| && code[at..] == EncodePrinted(fs[1..])
    ensures code[i] == '(' && code[i + 1..i + 3] == fs[0].ai && code[i + 3] == ')' && code[i + 4..at] == fs[0].value
    ensures forall k :: i + 4 <= k < at ==> code[k] != '('
  {
    hide *;
    var f, rest := fs[0], EncodePrinted(fs[1..]);
    FirstOk(fs);
    PrintedShape(fs);
    AiIsNoSeparator(f);
    FourHeads(code, i, '(', f.ai, ')', f.value, rest);
    at := i + 4 + |f.value|;
    NoParen(code, i + 4, f);
  }

  lemma NoParen(code: string, from: nat, f: Field)
    requires FieldOk(f) && from + |f.value| <= |code|
    requires forall k :: 0 <= k < |f.value| ==> code[from + k] == f.value[k]
    ensures forall k :: from <= k < from + |f.value| ==> code[k] != '('
  {
    forall k | from <= k < from + |f.value| ensures code[k] != '(' {
      assert code[from + (k - from)] == f.value[k - from];
    }
  }

  lemma PrintedStep(code: string, i: nat, fs: seq<Field>, fields: map<string, string>) returns (at: nat)
    requires FieldsOk(fs) && fs != [] && i <= |code| && code[i..] == EncodePrinted(fs)
    ensures i < at <= |code| && code[at..] == EncodePrinted(fs[1..])
    ensures ScanFrom(code, i, fields) == ScanFrom(code, at, fields[fs[0].ai := fs[0].value])
  {
    at := PrintedHead(code, i, fs);
    assert FieldOk(fs[0]);
    AiShape(fs[0].ai);
    assert code[i + 1] == code[i + 1..i + 3][0] && code[i + 2] == code[i + 1..i + 3][1];
    TwoDigitRun(code, i + 1);
    if at < |code| { assert code[at] == code[at..][0]; }
    IndexOfIs(code, '(', i + 4, at);
    NoGs(fs[0].value);
  }

  lemma TwoDigitRun(code: string, i: nat)
    requires i + 2 < |code| && IsDigit(code[i]) && IsDigit(code[i + 1]) && !IsDigit(code[i + 2])
    ensures DigitRun(code, i) == 2
  {
    assert DigitRun(code, i + 2) == 0;
    assert DigitRun(code, i + 1) == 1;
  }

  /** So does the scan of the printed form. */
  lemma {:induction false} PrintedReadsBack(code: string, i: nat, fs: seq<Field>, fields: map<string, string>)
    requires FieldsOk(fs) && i <= |code| && code[i..] == EncodePrinted(fs)
    ensures ScanFrom(code, i, fields) == PutAll(fields, fs)
    decreases |fs|
  {
    if fs != [] {
      var at := PrintedStep(code, i, fs, fields);
      PrintedReadsBack(code, at, fs[1..], fields[fs[0].ai := fs[0].value]);
    }
  }

  // ---- The whole way round ----

  /** Printable upper-case codes, which normalization leaves alone but for padding bare digits. */
  predicate Printable(s: string) {
    s != "" && s[0] != ']' && forall i :: 0 <= i < |s| ==> s[i] == GS || s[i] == '(' || Plain(s[i])
  }

  /** 12 to 14 bare digits are taken for a GTIN and padded to 14. */
  predicate BareGtin(s: string) { AllDigits(s) && 12 <= |s| <= 14 }

  /** What a scanner may send before the code: nothing, or the AIM identifier of the symbology. */
  /** Nothing, or a bracket, a letter, and a letter or digit. */
  predicate AimOrNone(aim: string) {
    || aim == ""
    || (&& |aim| == 3 && aim[0] == ']' && ('A' <= aim[1] <= 'Z' || 'a' <= aim[1] <= 'z')
        && ('A' <= aim[2] <= 'Z' || 'a' <= aim[2] <= 'z' || '0' <= aim[2] <= '9'))
  }

  lemma {:induction false} NothingDropped(s: string)
    requires forall i :: 0 <= i < |s| ==> !IsControl(s[i])
    ensures DropControls(s) == s
  {
    if s != "" { NothingDropped(s[1..]); }
  }

  lemma TrimNothing(s: string)
    requires s != "" && !IsSpace(s[0]) && !IsSpace(s[|s| - 1])
    ensures Trim(s) == s
  {
  }

  lemma BodyStays(s: string)
    requires Printable(s)
    ensures Upper(Trim(DropControls(s))) == s && !IsSpace(s[0]) && !IsSpace(s[|s| - 1])
  {
    NothingDropped(s);
    TrimNothing(s);
    assert Upper(s) == s;
  }

  lemma AimThenCode(aim: string, s: string)
    requires AimOrNone(aim) && Printable(s)
    ensures HasAim(aim + s) <==> aim != ""
    ensures (aim + s)[0] == (if aim == "" then s[0] else ']') && (aim + s)[|aim + s| - 1] == s[|s| - 1]
  {
  }

  lemma NormalizeParts(raw: string, aim: string, s: string)
    requires raw == aim + s && Trim(raw) == raw && (aim == "" || |aim| == 3) && (HasAim(raw) <==> aim != "")
    requires Upper(Trim(DropControls(s))) == s
    ensures Normalize(raw).code == (if BareGtin(s) then ZeroPad(s, 14) else s)
    ensures Normalize(raw).symbology == (if aim == "" then None else Some(aim))
  {
    hide Upper, DropControls, Trim, ZeroPad, AllDigits, HasAim;
    if aim == "" {
      assert raw == s;
    } else {
      assert raw[..3] == aim && raw[3..] == s;
    }
  }

  lemma NormalizesTo(aim: string, s: string)
    requires AimOrNone(aim) && Printable(s)
    ensures Normalize(aim + s).code == (if BareGtin(s) then ZeroPad(s, 14) else s)
    ensures Normalize(aim + s).symbology == (if aim == "" then None else Some(aim))
  {
    hide Upper, DropControls, Trim, ZeroPad, BareGtin, HasAim, Normalize, IsLetter;
    BodyStays(s);
    AimThenCode(aim, s);
    TrimNothing(aim + s);
    NormalizeParts(aim + s, aim, s);
  }

  lemma {:induction false} EncodedChars(fs: seq<Field>)
    requires FieldsOk(fs)
    ensures forall i :: 0 <= i < |EncodeRaw(fs)| ==> EncodeRaw(fs)[i] == GS || Plain(EncodeRaw(fs)[i])
    ensures forall i :: 0 <= i < |EncodePrinted(fs)| ==> EncodePrinted(fs)[i] == '(' || Plain(EncodePrinted(fs)[i])
  {
    if fs != [] {
      EncodedChars(fs[1..]);
      AiShape(fs[0].ai);
      assert FieldOk(fs[0]);
    }
  }

  lemma {:induction false} PutGrows(fields: map<string, string>, fs: seq<Field>)
    ensures fs != [] || fields != map[] ==> PutAll(fields, fs) != map[]
    decreases |fs|
  {
    if fs != [] {
      var next := fields[fs[0].ai := fs[0].value];
      assert fs[0].ai in next;
      PutGrows(next, fs[1..]);
    }
  }

  /** The fields of a label read as data; the later of two fields with one AI counts. */
  function DataOf(fs: seq<Field>): Option<Gs1Data> { ToGs1Data(PutAll(map[], fs)) }

  /** What the label says under this AI: the last field with it counts. */
  function Says(fs: seq<Field>, ai: string): Option<string> {
    if fs == [] then None
    else if fs[|fs| - 1].ai == ai then Some(fs[|fs| - 1].value)
    else Says(fs[..|fs| - 1], ai)
  }

  lemma {:induction false} PutLast(fields: map<string, string>, fs: seq<Field>)
    requires fs != []
    ensures var k := |fs| - 1;
            PutAll(fields, fs) == PutAll(fields, fs[..k])[fs[k].ai := fs[k].value]
    decreases |fs|
  {
    if |fs| > 1 {
      PutLast(fields[fs[0].ai := fs[0].value], fs[1..]);
      assert fs[1..][..|fs| - 2] == fs[..|fs| - 1][1..];
    } else {
      assert fs[1..] == [] && fs[..0] == [];
    }
  }

  lemma {:induction false} PutAllGets(fs: seq<Field>, ai: string)
    ensures Get(PutAll(map[], fs), ai) == Says(fs, ai)
  {
    if fs != [] {
      PutLast(map[], fs);
      PutAllGets(fs[..|fs| - 1], ai);
    }
  }

  /** What the fields of a label mean: 01, or else 02, is the article, 10 its batch, 17 its expiry, 15 its
      best-before date and 21 its serial number. A label whose article fails its check is not read, nor is
      one that has neither article nor batch. */
  lemma LabelMeans(fs: seq<Field>)
    ensures var gtin := if Says(fs, "01").Some? then Says(fs, "01") else Says(fs, "02");
            var batch, expiry, best := Says(fs, "10"), Says(fs, "17"), Says(fs, "15");
            DataOf(fs)
            == if (gtin.Some? && !CheckDigitValid(gtin.value)) || (gtin.None? && (batch.None? || batch == Some("")))
               then None
               else Some(Gs1Data(gtin, batch, if expiry.Some? then Gs1Date(expiry.value) else None,
                                 if best.Some? then Gs1Date(best.value) else None, Says(fs, "21")))
  {
    PutAllGets(fs, "01");
    PutAllGets(fs, "02");
    PutAllGets(fs, "10");
    PutAllGets(fs, "17");
    PutAllGets(fs, "15");
    PutAllGets(fs, "21");
    hide PutAll, CheckDigitValid, Gs1Date, Says;
  }

  lemma LeadsWithGtin(fs: seq<Field>)
    requires FieldsOk(fs) && fs != [] && (fs[0].ai == "01" || fs[0].ai == "02")
    ensures LooksGs1(EncodeRaw(fs)) && !(|EncodeRaw(fs)| <= 14)
    ensures EncodeRaw(fs)[0] == '0'
  {
    assert FieldOk(fs[0]);
    RawShape(fs);
    hide EncodeRaw, Separator;
    var code := EncodeRaw(fs);
    assert code[0..] == code;
    TwoHeads(code, 0, fs[0].ai, fs[0].value, Separator(fs) + EncodeRaw(fs[1..]));
    assert code[0..2] == code[..2] && code[0 + 0] == fs[0].ai[0];
  }

  lemma ReadsRaw(code: string, fs: seq<Field>)
    requires FieldsOk(fs) && fs != [] && code == EncodeRaw(fs)
    ensures ParseFrom(code, 0, map[]) == Some(PutAll(map[], fs)) && PutAll(map[], fs) != map[]
    ensures Printable(code) && IsDigit(code[0])
  {
    EncodedChars(fs);
    PutGrows(map[], fs);
    assert code[0..] == code;
    RawReadsBack(code, 0, fs, map[]);
    var end, at := NextField(code, 0, fs);
    AiShape(fs[0].ai) by { assert FieldOk(fs[0]); }
    assert code[0] == Cut(code, 0, 2)[0];
  }

  lemma ReadsPrinted(code: string, fs: seq<Field>)
    requires FieldsOk(fs) && fs != [] && code == EncodePrinted(fs)
    ensures ScanFrom(code, 0, map[]) == PutAll(map[], fs) && PutAll(map[], fs) != map[]
    ensures Printable(code) && code[0] == '('
  {
    EncodedChars(fs);
    PutGrows(map[], fs);
    assert code[0..] == code;
    PrintedReadsBack(code, 0, fs, map[]);
  }

  /** GS1 round trip: any label that leads with a GTIN, of known fields, scanned in its raw form with
      separators after the variable fields but the last, with or without an AIM identifier of any kind
      in front, reads as exactly its data; typed or scanned as printed with parentheses, as the same. */
  lemma Gs1RoundTrip(fs: seq<Field>, aim: string)
    requires FieldsOk(fs) && fs != [] && (fs[0].ai == "01" || fs[0].ai == "02") && AimOrNone(aim)
    ensures ParseGs1(aim + EncodeRaw(fs)) == DataOf(fs)
    ensures ParseGs1(aim + EncodePrinted(fs)) == DataOf(fs)
  {
    LeadsWithGtin(fs);
    ReadsRaw(EncodeRaw(fs), fs);
    ReadsPrinted(EncodePrinted(fs), fs);
    hide EncodeRaw, EncodePrinted, Normalize, ParseFrom, ScanFrom, PutAll, LooksGs1, FieldsOk;
    NormalizesTo(aim, EncodeRaw(fs));
    NormalizesTo(aim, EncodePrinted(fs));
  }

  lemma OneField(f: Field, rest: seq<Field>)
    requires VariableMax(f.ai).None? || rest == []
    ensures EncodeRaw([f] + rest) == f.ai + f.value + EncodeRaw(rest)
    ensures EncodePrinted([f] + rest) == "(" + f.ai + ")" + f.value + EncodePrinted(rest)
  {
    assert ([f] + rest)[1..] == rest;
  }

  lemma NoFields()
    ensures EncodeRaw([]) == "" && EncodePrinted([]) == ""
  {
  }

  lemma Join(u: string, v: string, w: string)
    ensures u + (v + (w + "")) == u + v + w
  {
  }

  lemma ThreeFields(a: Field, b: Field, c: Field)
    requires VariableMax(a.ai).None? && VariableMax(b.ai).None?
    ensures EncodeRaw([a, b, c]) == (a.ai + a.value) + (b.ai + b.value) + (c.ai + c.value)
    ensures EncodePrinted([a, b, c])
         == ("(" + a.ai + ")" + a.value) + ("(" + b.ai + ")" + b.value) + ("(" + c.ai + ")" + c.value)
  {
    hide *;
    assert [c] + [] == [c] && [b] + [c] == [b, c] && [a] + [b, c] == [a, b, c];
    NoFields();
    OneField(c, []);
    OneField(b, [c]);
    OneField(a, [b, c]);
    Join(a.ai + a.value, b.ai + b.value, c.ai + c.value);
    Join("(" + a.ai + ")" + a.value, "(" + b.ai + ")" + b.value, "(" + c.ai + ")" + c.value);
  }

  lemma SaysOfThree(a: Field, b: Field, c: Field, ai: string)
    ensures Says([a, b, c], ai)
         == if c.ai == ai then Some(c.value) else if b.ai == ai then Some(b.value)
            else if a.ai == ai then Some(a.value) else None
  {
    assert [a, b, c][..2] == [a, b] && [a, b][..1] == [a] && [a][..0] == [];
    assert Says([a], ai) == if a.ai == ai then Some(a.value) else None;
    assert Says([a, b], ai) == if b.ai == ai then Some(b.value) else Says([a], ai);
  }

  lemma FoodFields(gtin: string, expiry: string, batch: string)
    requires |gtin| == 14 && CheckDigitValid(gtin) && |expiry| == 6 && AllDigits(expiry) && |batch| <= 20
    requires forall i :: 0 <= i < |batch| ==> Plain(batch[i])
    ensures var fs := [Field("01", gtin), Field("17", expiry), Field("10", batch)];
            && FieldsOk(fs) && fs[0].ai == "01"
            && DataOf(fs) == Some(Gs1Data(Some(gtin), Some(batch), Gs1Date(expiry), None, None))
  {
    var a, b, c := Field("01", gtin), Field("17", expiry), Field("10", batch);
    assert FieldOk(a) && FieldOk(b) && FieldOk(c);
    hide CheckDigitValid, DataOf, Gs1Date, FieldOk, Says;
    SaysOfThree(a, b, c, "01");
    SaysOfThree(a, b, c, "10");
    SaysOfThree(a, b, c, "17");
    SaysOfThree(a, b, c, "15");
    SaysOfThree(a, b, c, "21");
    LabelMeans([a, b, c]);
  }

  /** The usual label of a perishable: article, six-digit expiry date, batch last. Scanned or typed as printed
      it gives just these three. */
  lemma FoodLabel(gtin: string, expiry: string, batch: string)
    requires |gtin| == 14 && CheckDigitValid(gtin) && |expiry| == 6 && AllDigits(expiry) && |batch| <= 20
    requires forall i :: 0 <= i < |batch| ==> Plain(batch[i])
    ensures var data := Some(Gs1Data(Some(gtin), Some(batch), Gs1Date(expiry), None, None));
            && ParseGs1(("01" + gtin) + ("17" + expiry) + ("10" + batch)) == data
            && ParseGs1(("(" + "01" + ")" + gtin) + ("(" + "17" + ")" + expiry) + ("(" + "10" + ")" + batch)) == data
  {
    var a, b, c := Field("01", gtin), Field("17", expiry), Field("10", batch);
    assert VariableMax("01").None? && VariableMax("17").None?;
    hide *;
    FoodFields(gtin, expiry, batch);
    ThreeFields(a, b, c);
    NoAim();
    Gs1RoundTrip([a, b, c], "");
    assert "" + EncodeRaw([a, b, c]) == EncodeRaw([a, b, c]);
    assert "" + EncodePrinted([a, b, c]) == EncodePrinted([a, b, c]);
  }

  lemma NoAim()
    ensures AimOrNone("")
  {
  }

  predicate DeclaresGs1(aim: string) { aim in {"]C1", "]c1", "]E0", "]e0", "]D2", "]d2", "]Q3", "]q3"} }

  lemma DeclaresInCapitals(aim: string)
    requires DeclaresGs1(aim)
    ensures AimOrNone(aim) && aim != "" && Upper(aim) in {"]C1", "]E0", "]D2", "]Q3"}
  {
    var u := Upper(aim);
    assert u == [u[0], u[1], u[2]];
  }

  /** Padding 12 or 13 digits puts a zero before the first AI. */
  lemma PaddedHead(s: string)
    requires |s| == 12 || |s| == 13
    ensures |ZeroPad(s, 14)| == 14 && ZeroPad(s, 14)[0] == '0'
    ensures ZeroPad(s, 14)[1] == if |s| == 13 then s[0] else '0'
  {
    var z := "0" + s;
    assert ZeroPad(s, 14) == ZeroPad(z, 14);
    if |s| == 12 { assert ZeroPad(z, 14) == ZeroPad("0" + z, 14) == "0" + z; } else { assert ZeroPad(z, 14) == z; }
  }

  /** No label of that length begins with a zero. */
  lemma ShortHead(fs: seq<Field>)
    requires FieldsOk(fs) && fs != [] && |EncodeRaw(fs)| <= 13
    ensures EncodeRaw(fs)[0] == '1' || EncodeRaw(fs)[0] == '2' || EncodeRaw(fs)[0] == '3'
  {
    var code := EncodeRaw(fs);
    assert code[0..] == code;
    var end, at := NextField(code, 0, fs);
    assert FieldOk(fs[0]);
    assert code[0] == Cut(code, 0, 2)[0];
  }

  lemma PaddedUnread(code: string)
    requires |code| == 14 && code[0] == '0' && (code[1] == '0' || code[1] == '1' || code[1] == '2' || code[1] == '3')
    ensures ParseFrom(code, 0, map[]) == None || ParseFrom(code, 0, map[]) == Some(map[])
  {
    assert Cut(code, 0, 2) == [code[0], code[1]];
  }

  /** A label of any known fields, behind an AIM identifier that declares GS1, reads as exactly its data,
      with one exception: if its raw form is 12 or 13 bare digits it is padded like a GTIN and not read. */
  lemma DeclaredRoundTrip(fs: seq<Field>, aim: string)
    requires FieldsOk(fs) && fs != [] && DeclaresGs1(aim)
    ensures var raw := EncodeRaw(fs);
            ParseGs1(aim + raw) == if AllDigits(raw) && 12 <= |raw| <= 13 then None else DataOf(fs)
  {
    var raw := EncodeRaw(fs);
    ReadsRaw(raw, fs);
    if AllDigits(raw) && 12 <= |raw| <= 13 {
      PaddedHead(raw);
      ShortHead(fs);
      PaddedUnread(ZeroPad(raw, 14));
    }
    DeclaresInCapitals(aim);
    hide EncodeRaw, Normalize, ParseFrom, PutAll, LooksGs1, FieldsOk, Upper, HasAim, Printable, DeclaresGs1;
    NormalizesTo(aim, raw);
  }

  // ---- Caps Lock ----

  predicate CapitalOf(capital: char, small: char) {
    'a' <= small <= 'z' && capital as int == small as int - 'a' as int + 'A' as int
  }

  /** Two strings a wedge with Caps Lock on or off may send for one symbol. */
  predicate SameButCase(a: string, b: string) {
    |a| == |b| && forall i :: 0 <= i < |a| ==> a[i] == b[i] || CapitalOf(a[i], b[i]) || CapitalOf(b[i], a[i])
  }

  lemma SameUpper(c: char, d: char)
    ensures UpperChar(c) == UpperChar(d) <==> c == d || CapitalOf(c, d) || CapitalOf(d, c)
  {
  }

  lemma {:induction false} TrimCase(a: string, b: string)
    requires SameButCase(a, b)
    ensures SameButCase(TrimLeft(a), TrimLeft(b)) && SameButCase(TrimRight(a), TrimRight(b))
  {
    if a != "" {
      assert IsSpace(a[0]) <==> IsSpace(b[0]);
      assert IsSpace(a[|a| - 1]) <==> IsSpace(b[|b| - 1]);
      TrimCase(a[1..], b[1..]);
      TrimCase(a[..|a| - 1], b[..|b| - 1]);
    }
  }

  lemma {:induction false} DropCase(a: string, b: string)
    requires SameButCase(a, b)
    ensures SameButCase(DropControls(a), DropControls(b))
  {
    if a != "" {
      assert IsControl(a[0]) <==> IsControl(b[0]);
      DropCase(a[1..], b[1..]);
      hide IsControl, UpperChar;
    }
  }

  lemma UpperCase(a: string, b: string)
    requires SameButCase(a, b)
    ensures Upper(a) == Upper(b)
  {
    hide UpperChar, CapitalOf;
    forall i | 0 <= i < |a| ensures UpperChar(a[i]) == UpperChar(b[i]) { SameUpper(a[i], b[i]); }
  }

  lemma TrimBoth(a: string, b: string)
    requires SameButCase(a, b)
    ensures SameButCase(Trim(a), Trim(b))
  {
    hide TrimLeft, TrimRight, SameButCase;
    TrimCase(a, b);
    TrimCase(TrimLeft(a), TrimLeft(b));
  }

  lemma AimCase(a: string, b: string)
    requires SameButCase(a, b)
    ensures HasAim(a) <==> HasAim(b)
    ensures HasAim(a) ==> |a| >= 3 && |b| >= 3 && Upper(a[..3]) == Upper(b[..3]) && SameButCase(a[3..], b[3..])
  {
    if |a| >= 3 {
      SameUpper(a[0], b[0]);
      SameUpper(a[1], b[1]);
      SameUpper(a[2], b[2]);
      UpperCase(a[..3], b[..3]);
    }
  }

  lemma BodyCase(a: string, b: string)
    requires SameButCase(a, b)
    ensures Upper(Trim(DropControls(a))) == Upper(Trim(DropControls(b)))
  {
    hide *;
    DropCase(a, b);
    TrimBoth(DropControls(a), DropControls(b));
    UpperCase(Trim(DropControls(a)), Trim(DropControls(b)));
  }

  /** The identifier in capitals, as the check for GS1 reads it. */
  function AimUpper(symbology: Option<string>): Option<string> {
    if symbology.Some? then Some(Upper(symbology.value)) else None
  }

  lemma NormalizeCase(a: string, b: string)
    requires SameButCase(a, b)
    ensures Normalize(a).code == Normalize(b).code
    ensures AimUpper(Normalize(a).symbology) == AimUpper(Normalize(b).symbology)
  {
    hide Trim, DropControls, Upper, HasAim, SameButCase, ZeroPad, AllDigits;
    TrimBoth(a, b);
    AimCase(Trim(a), Trim(b));
    if HasAim(Trim(a)) { BodyCase(Trim(a)[3..], Trim(b)[3..]); } else { BodyCase(Trim(a), Trim(b)); }
  }

  /** Caps Lock does not matter: codes that differ in letter case only are stored and looked up under one
      code and read as the same data, though the identifier is passed on in the case it was sent. */
  lemma CapsLockHarmless(a: string, b: string)
    requires SameButCase(a, b)
    ensures Normalize(a).code == Normalize(b).code && ParseGs1(a) == ParseGs1(b)
    ensures AimUpper(Normalize(a).symbology) == AimUpper(Normalize(b).symbology)
  {
    hide Normalize, Upper;
    NormalizeCase(a, b);
  }

  // ---- White space ----

  lemma {:induction false} TrimLeftEnd(s: string, c: char)
    requires IsSpace(c)
    ensures TrimLeft(s + [c]) == if TrimLeft(s) == "" then "" else TrimLeft(s) + [c]
  {
    if s == "" {
      assert "" + [c] == [c] && [c][1..] == "";
    } else {
      assert (s + [c])[0] == s[0] && (s + [c])[1..] == s[1..] + [c];
      TrimLeftEnd(s[1..], c);
    }
  }

  lemma TrimRightEnd(s: string, c: char)
    requires IsSpace(c)
    ensures TrimRight(s + [c]) == TrimRight(s)
  {
    assert (s + [c])[..|s|] == s;
  }

  lemma TrimEnds(s: string, c: char)
    requires IsSpace(c)
    ensures Trim([c] + s) == Trim(s) && Trim(s + [c]) == Trim(s)
  {
    assert ([c] + s)[1..] == s;
    TrimLeftEnd(s, c);
    TrimRightEnd(TrimLeft(s), c);
  }

  /** Blanks, tabs and line ends that a wedge puts before or after a code do not matter. */
  lemma BlanksHarmless(s: string, c: char)
    requires c in {' ', '\t', '\n', 11 as char, 12 as char, '\r'}
    ensures Normalize([c] + s) == Normalize(s) && Normalize(s + [c]) == Normalize(s)
    ensures ParseGs1([c] + s) == ParseGs1(s) && ParseGs1(s + [c]) == ParseGs1(s)
  {
    assert '\t' == 9 as char && '\n' == 10 as char && '\r' == 13 as char;
    TrimEnds(s, c);
    hide Trim, DropControls, Upper, ZeroPad, AllDigits, ParseFrom, ScanFrom, ToGs1Data, LooksGs1, DeclaredGs1;
  }
}
