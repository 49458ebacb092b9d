/** CPU lists: reading "0, 2-5 7" into a mask and printing a mask as " 0 2 3 4 5 7". */
module CpuSet {

  import opened Chars

  const CPU_SETSIZE: nat := 1024
  const ULONG_MAX: nat := 0xffff_ffff_ffff_ffff

  predicate IsSep(c: char) { IsSpace(c) || c == ',' }

  // The characters that may stand between two entries: a comma and the white space of C.
  predicate IsGap(c: char) {
    c == ',' || c == ' ' || c == '\t' || c == '\n' || c == '\r' || c == 11 as char || c == 12 as char
  }

  lemma {:induction false} SepIsGap(c: char)
    ensures IsSep(c) <==> IsGap(c)
  {
  }

  // Where the spaces, separators or digits at i end.
  function SpacesEnd(s: string, i: nat): (end: nat)
    requires i <= |s|
    ensures i <= end <= |s|
    decreases |s| - i
  {
    if i < |s| && IsSpace(s[i]) then SpacesEnd(s, i + 1) else i
  }

  function SepsEnd(s: string, i: nat): (end: nat)
    requires i <= |s|
    ensures i <= end <= |s|
    decreases |s| - i
  {
    if i < |s| && IsSep(s[i]) then SepsEnd(s, i + 1) else i
  }

  ghost predicate DigitsIn(s: string, i: nat, j: nat)
    requires j <= |s|
  {
    forall k {:trigger IsDigit(s[k])} :: i <= k < j ==> IsDigit(s[k])
  }

  function DigitsEnd(s: string, i: nat): (end: nat)
    requires i <= |s|
    ensures i <= end <= |s| && DigitsIn(s, i, end)
    decreases |s| - i
  {
    if i < |s| && IsDigit(s[i]) then DigitsEnd(s, i + 1) else i
  }

  // ---- strtoul, base 10 ----

  function ValueOf(s: string, i: nat, j: nat): nat
    requires i <= j <= |s| && DigitsIn(s, i, j)
  {
    if i == j then 0 else 10 * ValueOf(s, i, j - 1) + DigitAt(s, j - 1)
  }

  function DigitAt(s: string, k: nat): nat
    requires k < |s| && IsDigit(s[k])
  {
    s[k] as int - '0' as int
  }

  // `end` is where reading stopped: where it began if there is no number.
  datatype Scan = Scan(value: nat, end: nat, overflow: bool)

  function StrToUl(s: string, i: nat): (r: Scan)
    requires i <= |s|
    ensures i <= r.end <= |s|
  {
    var sign := SpacesEnd(s, i);
    var number := if sign < |s| && (s[sign] == '-' || s[sign] == '+') then sign + 1 else sign;
    var end := DigitsEnd(s, number);
    if end == number then Scan(0, i, false)
    else Signed(number > sign && s[sign] == '-', ValueOf(s, number, end), end)
  }

  // A minus sign negates modulo 2^64.
  function Signed(negative: bool, v: nat, end: nat): (r: Scan)
    ensures r.end == end
  {
    if v > ULONG_MAX then Scan(ULONG_MAX, end, true)
    else Scan(if negative && v > 0 then ULONG_MAX - v + 1 else v, end, false)
  }

  // ---- What a list says ----

  datatype Span = Span(lo: nat, hi: nat)

  ghost predicate Covers(spans: seq<Span>, cpu: int) {
    exists k :: 0 <= k < |spans| && spans[k].lo <= cpu <= spans[k].hi
  }

  // The id or range read somewhere, and where reading stopped.
  datatype Item = Good(span: Span, end: nat) | NoNumber | NoRange

  function ReadItem(s: string, i: nat): (r: Item)
    requires i <= |s|
    ensures r.Good? ==> i < r.end <= |s| && r.span.lo <= r.span.hi < CPU_SETSIZE
  {
    var left := StrToUl(s, i);
    if left.overflow || left.end == i || left.value >= CPU_SETSIZE then NoNumber
    else ReadRest(s, left.value, SpacesEnd(s, left.end))
  }

  function ReadRest(s: string, left: nat, end: nat): (r: Item)
    requires end <= |s| && left < CPU_SETSIZE
    ensures r.Good? ==> end <= r.end <= |s| && r.span.lo <= r.span.hi < CPU_SETSIZE
  {
    if end == |s| || s[end] != '-' then Good(Span(left, left), end)
    else RangeTo(left, StrToUl(s, end + 1))
  }

  function RangeTo(left: nat, right: Scan): Item {
    if right.overflow || right.value >= CPU_SETSIZE then NoNumber
    else if right.value < left then NoRange
    else Good(Span(left, right.value), right.end)
  }

  // `at` is what the error message shows the rest of.
  datatype Outcome = Listed(spans: seq<Span>) | BadNumber(at: nat) | BadRange(at: nat)

  function Prepend(spans: seq<Span>, r: Outcome): Outcome {
    if r.Listed? then Listed(spans + r.spans) else r
  }

  function Decode(s: string, i: nat): Outcome
    requires i <= |s|
    decreases |s| - i
  {
    var at := SepsEnd(s, i);
    if at == |s| then Listed([])
    else
      match ReadItem(s, at)
      case NoNumber => BadNumber(at)
      case NoRange => BadRange(at)
      case Good(span, end) => Prepend([span], Decode(s, end))
  }

  // ---- The program ----

  method Zero(mask: array<bool>)
    modifies mask
    ensures forall cpu :: 0 <= cpu < mask.Length ==> !mask[cpu]
  {
    for i := 0 to mask.Length
      invariant forall cpu :: 0 <= cpu < i ==> !mask[cpu]
    {
      mask[i] := false;
    }
  }

  method PastSeps(s: string, start: nat) returns (str: nat)
    requires start <= |s|
    ensures str == SepsEnd(s, start)
  {
    str := start;
    while str < |s| && IsSep(s[str])
      invariant str <= |s| && SepsEnd(s, start) == SepsEnd(s, str)
    {
      str := str + 1;
    }
  }

  method PastSpaces(s: string, start: nat) returns (end: nat)
    requires start <= |s|
    ensures end == SpacesEnd(s, start)
  {
    end := start;
    while end < |s| && IsSpace(s[end])
      invariant end <= |s| && SpacesEnd(s, start) == SpacesEnd(s, end)
    {
      end := end + 1;
    }
  }

  datatype Status = Decoded | NumberExpected(at: nat) | RangeExpected(at: nat)

  ghost predicate Reports(item: Item, str: nat, status: Status, left: nat, right: nat, end: nat) {
    match item
    case NoNumber => status == NumberExpected(str)
    case NoRange => status == RangeExpected(str)
    case Good(span, after) => status == Decoded && span == Span(left, right) && end == after
  }

  // The two calls of strtoul for the id or range at `str`.
  method ReadSpan(s: string, str: nat) returns (status: Status, left: nat, right: nat, end: nat)
    requires str < |s|
    ensures Reports(ReadItem(s, str), str, status, left, right, end)
  {
    var scan := StrToUl(s, str);
    left, right, end, status := scan.value, scan.value, scan.end, NumberExpected(str);
    if scan.overflow || end == str || left >= CPU_SETSIZE { return; }
    end := PastSpaces(s, end);
    if end < |s| && s[end] == '-' {
      scan := StrToUl(s, end + 1);
      right, end := scan.value, scan.end;
      if scan.overflow || end == str || right >= CPU_SETSIZE { return; }
      if right < left {
        status := RangeExpected(str);
        return;
      }
    }
    status := Decoded;
  }

  method SetRange(mask: array<bool>, left: nat, right: nat)
    requires left <= right < mask.Length
    modifies mask
    ensures forall cpu :: 0 <= cpu < mask.Length ==> (mask[cpu] <==> old(mask[cpu]) || left <= cpu <= right)
  {
    var cpu := left;
    while cpu <= right
      invariant left <= cpu <= right + 1
      invariant forall c :: 0 <= c < mask.Length ==> (mask[c] <==> old(mask[c]) || left <= c < cpu)
    {
      mask[cpu] := true;
      cpu := cpu + 1;
    }
  }

  ghost predicate Holds(mask: seq<bool>, spans: seq<Span>) {
    forall cpu :: 0 <= cpu < |mask| ==> (mask[cpu] <==> Covers(spans, cpu))
  }

  lemma {:induction false} HoldsMore(was: seq<bool>, now: seq<bool>, spans: seq<Span>, span: Span)
    requires |was| == |now| && Holds(was, spans)
    requires forall cpu :: 0 <= cpu < |was| ==> (now[cpu] <==> was[cpu] || span.lo <= cpu <= span.hi)
    ensures Holds(now, spans + [span])
  {
    var more := spans + [span];
    forall cpu | 0 <= cpu < |now| ensures now[cpu] <==> Covers(more, cpu) {
      if Covers(spans, cpu) {
        var k :| 0 <= k < |spans| && spans[k].lo <= cpu <= spans[k].hi;
        assert more[k] == spans[k];
      }
      assert more[|spans|] == span;
    }
  }

  lemma {:induction false} PrependTwice(a: seq<Span>, b: seq<Span>, r: Outcome)
    ensures Prepend(a, Prepend(b, r)) == Prepend(a + b, r) && Prepend([], r) == r
  {
    if r.Listed? {
      assert a + (b + r.spans) == a + b + r.spans && [] + r.spans == r.spans;
    }
  }

  ghost predicate Finished(s: string, status: Status, mask: seq<bool>) {
    match status
    case Decoded => Decode(s, 0).Listed? && Holds(mask, Decode(s, 0).spans)
    case NumberExpected(at) => Decode(s, 0) == BadNumber(at)
    case RangeExpected(at) => Decode(s, 0) == BadRange(at)
  }

  // `str` only ever moves on, whatever the list holds.
  method RangeDecode(s: string, mask: array<bool>) returns (status: Status)
    requires mask.Length == CPU_SETSIZE
    modifies mask
    ensures Finished(s, status, mask[..])
  {
    Zero(mask);
    var str := 0;
    ghost var spans: seq<Span> := [];
    PrependTwice([], [], Decode(s, 0));
    while true
      invariant str <= |s| && Decode(s, 0) == Prepend(spans, Decode(s, str))
      invariant Holds(mask[..], spans)
      decreases |s| - str
    {
      ghost var begin := str;
      str := PastSeps(s, str);
      if str == |s| {
        assert spans + [] == spans;
        return Decoded;
      }
      var left, right, end;
      status, left, right, end := ReadSpan(s, str);
      if !status.Decoded? { return; }
      ghost var was := mask[..];
      SetRange(mask, left, right);
      HoldsMore(was, mask[..], spans, Span(left, right));
      PrependTwice(spans, [Span(left, right)], Decode(s, end));
      spans := spans + [Span(left, right)];
      str := end;
    }
  }

  // ---- Reading a text whose parts are known ----

  ghost predicate SpacesIn(s: string, i: nat, j: nat)
    requires j <= |s|
  {
    forall k {:trigger IsSpace(s[k])} :: i <= k < j ==> IsSpace(s[k])
  }

  ghost predicate SepsIn(s: string, i: nat, j: nat)
    requires j <= |s|
  {
    forall k {:trigger IsGap(s[k])} :: i <= k < j ==> IsGap(s[k])
  }

  lemma {:induction false} DigitsEndAt(s: string, i: nat, j: nat)
    requires i <= j <= |s| && DigitsIn(s, i, j) && (j == |s| || !IsDigit(s[j]))
    ensures DigitsEnd(s, i) == j
    decreases j - i
  {
    if i < j { DigitsEndAt(s, i + 1, j); }
  }

  lemma {:induction false} SpacesEndAt(s: string, i: nat, j: nat)
    requires i <= j <= |s| && SpacesIn(s, i, j) && (j == |s| || !IsSpace(s[j]))
    ensures SpacesEnd(s, i) == j
    decreases j - i
  {
    if i < j { SpacesEndAt(s, i + 1, j); }
  }

  lemma {:induction false} SepsEndAt(s: string, i: nat, j: nat)
    requires i <= j <= |s| && SepsIn(s, i, j) && (j == |s| || !IsSep(s[j]))
    ensures SepsEnd(s, i) == j
    decreases j - i
  {
    if i < j {
      SepIsGap(s[i]);
      SepsEndAt(s, i + 1, j);
    }
  }

  ghost predicate NumberAt(s: string, i: nat, j: nat)
  {
    i < j <= |s| && DigitsIn(s, i, j) && (j == |s| || !IsDigit(s[j]))
  }

  // A number may have spaces and a sign before it.
  lemma {:induction false} ScanNumber(s: string, i: nat, sign: nat, number: nat, end: nat)
    requires i <= sign <= number <= sign + 1 && NumberAt(s, number, end) && SpacesIn(s, i, sign)
    requires number == sign || s[sign] == '-' || s[sign] == '+'
    ensures StrToUl(s, i) == Signed(number > sign && s[sign] == '-', ValueOf(s, number, end), end)
  {
    assert IsDigit(s[number]);
    SpacesEndAt(s, i, sign);
    DigitsEndAt(s, number, end);
  }

  lemma {:induction false} SpacesInSeps(s: string, i: nat)
    requires i <= |s|
    ensures SpacesEnd(s, i) <= SepsEnd(s, i) == SepsEnd(s, SpacesEnd(s, i))
    decreases |s| - i
  {
    if i < |s| && IsSpace(s[i]) { SpacesInSeps(s, i + 1); }
  }

  // What an item comes to once its numbers are known.
  function Verdict(lo: nat, hi: nat, end: nat): Item {
    if lo >= CPU_SETSIZE || hi >= CPU_SETSIZE then NoNumber
    else if hi < lo then NoRange
    else Good(Span(lo, hi), end)
  }

  // The scan stands for the number m, as far as CPUs are concerned.
  ghost predicate Means(r: Scan, m: nat) {
    && (m < CPU_SETSIZE <==> !r.overflow && r.value < CPU_SETSIZE)
    && (m < CPU_SETSIZE ==> r.value == m)
  }

  ghost predicate DashAhead(s: string, i: nat)
    requires i <= |s|
  {
    SpacesEnd(s, i) < |s| && s[SpacesEnd(s, i)] == '-'
  }

  lemma {:induction false} ReadSingle(s: string, at: nat, left: nat, lo: nat)
    requires at < left <= |s| && StrToUl(s, at).end == left && Means(StrToUl(s, at), lo) && !DashAhead(s, left)
    ensures ReadItem(s, at) == Verdict(lo, lo, SpacesEnd(s, left))
  {
  }

  lemma {:induction false} ReadPair(s: string, at: nat, left: nat, dash: nat, end: nat, lo: nat, hi: nat)
    requires at < left <= dash < end <= |s| && SpacesIn(s, left, dash) && s[dash] == '-'
    requires StrToUl(s, at).end == left && Means(StrToUl(s, at), lo)
    requires StrToUl(s, dash + 1).end == end && Means(StrToUl(s, dash + 1), hi)
    ensures ReadItem(s, at) == Verdict(lo, hi, end)
  {
    SpacesEndAt(s, left, dash);
  }

  lemma {:induction false} DecodeSkipsSpaces(s: string, i: nat)
    requires i <= |s|
    ensures Decode(s, SpacesEnd(s, i)) == Decode(s, i)
  {
    SpacesInSeps(s, i);
  }

  // ---- Writing numbers ----

  function DigitOf(d: nat): (c: char)
    requires d < 10
    ensures IsDigit(c) && c as int - '0' as int == d
  {
    ('0' as int + d) as char
  }

  type Digits = w: string | DigitsIn(w, 0, |w|) witness ""

  // printf's %zu.
  function Decimal(n: nat): (w: Digits)
    ensures w != []
  {
    if n < 10 then [DigitOf(n)] else Decimal(n / 10) + [DigitOf(n % 10)]
  }

  // No leading zeros are printed.
  lemma {:induction false} DecimalStarts(n: nat)
    ensures Decimal(n)[0] == '0' <==> n == 0
    ensures n == 0 ==> Decimal(n) == "0"
  {
    if n >= 10 { DecimalStarts(n / 10); }
  }

  // The word w stands in s at i.
  ghost predicate Stands(s: string, i: nat, w: string) {
    i + |w| <= |s| && forall k :: 0 <= k < |w| ==> s[i + k] == w[k]
  }

  lemma {:induction false} StandsDigits(s: string, i: nat, w: Digits)
    requires Stands(s, i, w)
    ensures DigitsIn(s, i, i + |w|)
  {
    forall k | i <= k < i + |w| ensures IsDigit(s[k]) { assert s[i + (k - i)] == w[k - i]; }
  }

  lemma {:induction false} StandsValue(s: string, i: nat, w: Digits, n: nat)
    requires Stands(s, i, w) && n <= |w|
    ensures DigitsIn(s, i, i + |w|) && ValueOf(s, i, i + n) == ValueOf(w, 0, n)
  {
    StandsDigits(s, i, w);
    if n > 0 {
      StandsValue(s, i, w, n - 1);
      assert s[i + (n - 1)] == w[n - 1];
    }
  }

  // What a word of digits is worth.
  function Worth(w: Digits): nat { ValueOf(w, 0, |w|) }

  lemma {:induction false} WorthOfDecimal(n: nat)
    ensures Worth(Decimal(n)) == n
  {
    var w := Decimal(n);
    var last := |w| - 1;
    assert DigitAt(w, last) == n % 10;
    if n >= 10 {
      var front := Decimal(n / 10);
      WorthOfDecimal(n / 10);
      assert Stands(w, 0, front);
      StandsValue(w, 0, front, last);
    } else {
      assert ValueOf(w, 0, 1) == 10 * ValueOf(w, 0, 0) + DigitAt(w, 0);
    }
  }

  // ---- A list laid out with any separators, signs, leading zeros and spaces ----

  datatype Sign = NoSign | Plus | Minus
  datatype Num = Num(sign: Sign, digits: Digits)

  // An id, a range, or a range whose end is missing.
  datatype End = Same | To(mid: string, after: string, hi: Num) | Open(mid: string)
  datatype Entry = Entry(before: string, lo: Num, end: End)

  // A minus sign is taken modulo 2^64.
  function Meant(n: Num): nat {
    var v := Worth(n.digits);
    if n.sign.Minus? && 0 < v <= ULONG_MAX then ULONG_MAX + 1 - v else v
  }

  // A range whose end is missing is one to zero.
  function SpanOf(e: Entry): Span {
    Span(Meant(e.lo), match e.end case Same => Meant(e.lo) case To(_, _, hi) => Meant(hi) case Open(_) => 0)
  }

  predicate Fits(e: Entry) { SpanOf(e).lo <= SpanOf(e).hi < CPU_SETSIZE }

  ghost predicate AllFit(entries: seq<Entry>) { forall k :: 0 <= k < |entries| ==> Fits(entries[k]) }

  function Spans(entries: seq<Entry>): (spans: seq<Span>)
    ensures |spans| == |entries| && forall k :: 0 <= k < |spans| ==> spans[k] == SpanOf(entries[k])
  {
    if entries == [] then [] else [SpanOf(entries[0])] + Spans(entries[1..])
  }

  // How long the parts are, and that they stand in s at i.
  function SignLen(sign: Sign): nat { if sign.NoSign? then 0 else 1 }

  function NumLen(n: Num): nat { SignLen(n.sign) + |n.digits| }

  function EndLen(end: End): nat {
    match end
    case Same => 0
    case To(mid, after, hi) => |mid| + 1 + |after| + NumLen(hi)
    case Open(mid) => |mid| + 1
  }

  function EntryLen(e: Entry): nat { |e.before| + NumLen(e.lo) + EndLen(e.end) }

  ghost predicate SepsStand(s: string, i: nat, w: string) { Stands(s, i, w) && SepsIn(s, i, i + |w|) }

  ghost predicate SpacesStand(s: string, i: nat, w: string) { Stands(s, i, w) && SpacesIn(s, i, i + |w|) }

  ghost predicate SignStands(s: string, i: nat, sign: Sign) {
    match sign
    case NoSign => true
    case Plus => i < |s| && s[i] == '+'
    case Minus => i < |s| && s[i] == '-'
  }

  ghost predicate NumStands(s: string, i: nat, n: Num) {
    SignStands(s, i, n.sign) && Stands(s, i + SignLen(n.sign), n.digits) && n.digits != []
  }

  ghost predicate DashStands(s: string, i: nat, mid: string) {
    SpacesStand(s, i, mid) && i + |mid| < |s| && s[i + |mid|] == '-'
  }

  ghost predicate EndStands(s: string, i: nat, end: End) {
    match end
    case Same => i <= |s|
    case To(mid, after, hi) =>
      DashStands(s, i, mid) && SpacesStand(s, i + |mid| + 1, after) && NumStands(s, i + |mid| + 1 + |after|, hi)
    case Open(mid) => DashStands(s, i, mid)
  }

  ghost predicate NumberAhead(s: string, i: nat)
    requires i <= |s|
  {
    var k := SpacesEnd(s, i);
    && k < |s|
    && (IsDigit(s[k]) || (k + 1 < |s| && (s[k] == '-' || s[k] == '+') && IsDigit(s[k + 1])))
  }

  // What stands at j does not lengthen an entry that ends there.
  ghost predicate Detached(s: string, j: nat, end: End)
    requires j <= |s|
  {
    match end
    case Same => (j < |s| ==> !IsDigit(s[j])) && !DashAhead(s, j)
    case To(_, _, _) => j < |s| ==> !IsDigit(s[j])
    case Open(_) => !NumberAhead(s, j)
  }

  // The entry e stands at i and ends at j.
  ghost predicate Begins(s: string, i: nat, e: Entry, j: nat) {
    && SepsStand(s, i, e.before) && NumStands(s, i + |e.before|, e.lo)
    && EndStands(s, i + |e.before| + NumLen(e.lo), e.end)
    && j == i + EntryLen(e) <= |s| && Detached(s, j, e.end)
  }

  // From i on, s is made of the entries, and separators behind them.
  ghost predicate Lays(s: string, i: nat, entries: seq<Entry>)
    requires i <= |s|
    decreases |entries|
  {
    if entries == [] then SepsIn(s, i, |s|)
    else
      var j := i + EntryLen(entries[0]);
      Begins(s, i, entries[0], j) && Lays(s, j, entries[1..])
  }

  lemma {:induction false} SignedMeans(n: Num, end: nat)
    ensures Means(Signed(n.sign.Minus?, Worth(n.digits), end), Meant(n))
  {
  }

  // A number that stands at `at`, behind spaces, is what strtoul reads.
  lemma {:induction false} ScanNum(s: string, i: nat, at: nat, n: Num, end: nat)
    requires i <= at <= |s| && SpacesIn(s, i, at) && NumStands(s, at, n) && end == at + NumLen(n)
    requires end < |s| ==> !IsDigit(s[end])
    ensures end <= |s| && StrToUl(s, i).end == end && Means(StrToUl(s, i), Meant(n)) && !IsSep(s[at])
  {
    var number := at + SignLen(n.sign);
    StandsValue(s, number, n.digits, |n.digits|);
    assert IsDigit(s[number]);
    ScanNumber(s, i, at, number, end);
    SignedMeans(n, end);
  }

  // What stands at i is read as lo to hi, and reading goes on as it would at j.
  ghost predicate StepsTo(s: string, i: nat, lo: nat, hi: nat, j: nat)
    requires i <= |s| && j <= |s|
  {
    if lo <= hi < CPU_SETSIZE then Decode(s, i) == Prepend([Span(lo, hi)], Decode(s, j))
    else !Decode(s, i).Listed?
  }

  lemma {:induction false} DecodeSame(s: string, i: nat, at: nat, lo: Num, j: nat)
    requires i <= at <= |s| && SepsIn(s, i, at) && NumStands(s, at, lo)
    requires j == at + NumLen(lo) <= |s| && Detached(s, j, Same)
    ensures StepsTo(s, i, Meant(lo), Meant(lo), j)
  {
    ScanNum(s, at, at, lo, j);
    SepsEndAt(s, i, at);
    ReadSingle(s, at, j, Meant(lo));
    DecodeSkipsSpaces(s, j);
  }

  // The number, the spaces and the dash of a range, and what is read behind them.
  lemma {:induction false} DecodeRange(s: string, i: nat, at: nat, lo: Num, left: nat, mid: string, j: nat, hi: nat)
    requires i <= at <= |s| && SepsIn(s, i, at) && NumStands(s, at, lo)
    requires left == at + NumLen(lo) && DashStands(s, left, mid) && j <= |s|
    requires StrToUl(s, left + |mid| + 1).end == j && Means(StrToUl(s, left + |mid| + 1), hi)
    ensures StepsTo(s, i, Meant(lo), hi, j)
  {
    DashIsNoDigit(s, left, mid);
    ScanNum(s, at, at, lo, left);
    SepsEndAt(s, i, at);
    ReadPair(s, at, left, left + |mid|, j, Meant(lo), hi);
  }

  lemma {:induction false} DashIsNoDigit(s: string, left: nat, mid: string)
    requires DashStands(s, left, mid)
    ensures !IsDigit(s[left])
  {
    assert s[left] == '-' || IsSpace(s[left]);
  }

  lemma {:induction false} DecodeTo(s: string, i: nat, at: nat, lo: Num, left: nat, end: End, j: nat)
    requires i <= at <= |s| && SepsIn(s, i, at) && NumStands(s, at, lo)
    requires left == at + NumLen(lo) && end.To? && EndStands(s, left, end)
    requires j == left + EndLen(end) <= |s| && (j < |s| ==> !IsDigit(s[j]))
    ensures StepsTo(s, i, Meant(lo), Meant(end.hi), j)
  {
    var begin := left + |end.mid| + 1;
    ScanNum(s, begin, begin + |end.after|, end.hi, j);
    DecodeRange(s, i, at, lo, left, end.mid, j, Meant(end.hi));
  }

  lemma {:induction false} DecodeOpen(s: string, i: nat, at: nat, lo: Num, left: nat, mid: string, j: nat)
    requires i <= at <= |s| && SepsIn(s, i, at) && NumStands(s, at, lo)
    requires left == at + NumLen(lo) && DashStands(s, left, mid)
    requires j == left + |mid| + 1 && !NumberAhead(s, j)
    ensures StepsTo(s, i, Meant(lo), 0, j)
  {
    NoNumberAhead(s, j);
    DecodeRange(s, i, at, lo, left, mid, j, 0);
  }

  lemma {:induction false} NoNumberAhead(s: string, i: nat)
    requires i <= |s|
    ensures NumberAhead(s, i) <==> StrToUl(s, i).end > i
    ensures !NumberAhead(s, i) ==> StrToUl(s, i) == Scan(0, i, false)
  {
  }

  // Reading an entry and going on is the same as setting its span before the rest.
  lemma {:induction false} DecodeEntry(s: string, i: nat, e: Entry, j: nat)
    requires Begins(s, i, e, j)
    ensures StepsTo(s, i, SpanOf(e).lo, SpanOf(e).hi, j)
  {
    var at := i + |e.before|;
    var left := at + NumLen(e.lo);
    match e.end
    case Same => DecodeSame(s, i, at, e.lo, j);
    case To(_, _, _) => DecodeTo(s, i, at, e.lo, left, e.end, j);
    case Open(mid) => DecodeOpen(s, i, at, e.lo, left, mid, j);
  }

  lemma {:induction false} AllFitSplit(entries: seq<Entry>)
    requires entries != []
    ensures AllFit(entries) <==> Fits(entries[0]) && AllFit(entries[1..])
  {
    if Fits(entries[0]) && AllFit(entries[1..]) {
      forall k | 0 <= k < |entries| ensures Fits(entries[k]) {
        if k > 0 { assert entries[k] == entries[1..][k - 1]; }
      }
    }
  }

  ghost predicate ReadsAs(s: string, i: nat, entries: seq<Entry>)
    requires i <= |s|
  {
    && (Decode(s, i).Listed? <==> AllFit(entries))
    && (AllFit(entries) ==> Decode(s, i) == Listed(Spans(entries)))
  }

  lemma {:induction false} ReadsMore(s: string, i: nat, j: nat, entries: seq<Entry>)
    requires i <= |s| && entries != [] && Begins(s, i, entries[0], j) && ReadsAs(s, j, entries[1..])
    ensures ReadsAs(s, i, entries)
  {
    DecodeEntry(s, i, entries[0], j);
    AllFitSplit(entries);
  }

  // A list of numbers and ranges is accepted exactly if all are in order and below
  // 1024, and then it is read as just what was written.
  lemma {:induction false} DecodeLaid(s: string, i: nat, entries: seq<Entry>)
    requires i <= |s| && Lays(s, i, entries)
    ensures Decode(s, i).Listed? <==> AllFit(entries)
    ensures AllFit(entries) ==> Decode(s, i) == Listed(Spans(entries))
    decreases |entries|
  {
    if entries == [] {
      SepsEndAt(s, i, |s|);
    } else {
      var j := i + EntryLen(entries[0]);
      DecodeLaid(s, j, entries[1..]);
      ReadsMore(s, i, j, entries);
    }
  }

  // ---- Which lists are accepted ----

  lemma {:induction false} DigitsStop(s: string, i: nat)
    requires i <= |s|
    ensures DigitsEnd(s, i) < |s| ==> !IsDigit(s[DigitsEnd(s, i)])
    decreases |s| - i
  {
    if i < |s| && IsDigit(s[i]) { DigitsStop(s, i + 1); }
  }

  lemma {:induction false} SpacesBefore(s: string, i: nat)
    requires i <= |s|
    ensures SpacesIn(s, i, SpacesEnd(s, i))
    decreases |s| - i
  {
    if i < |s| && IsSpace(s[i]) { SpacesBefore(s, i + 1); }
  }

  // Separators are white space and commas, and reading passes over all of them.
  lemma {:induction false} SepsBefore(s: string, i: nat)
    requires i <= |s|
    ensures SepsIn(s, i, SepsEnd(s, i))
    ensures SepsEnd(s, i) < |s| ==> !IsGap(s[SepsEnd(s, i)])
    decreases |s| - i
  {
    if i < |s| && IsSep(s[i]) { SepsBefore(s, i + 1); }
  }

  lemma {:induction false} SliceStands(s: string, i: nat, j: nat)
    requires i <= j <= |s|
    ensures Stands(s, i, s[i..j])
  {
  }

  // The number that strtoul read.
  lemma {:induction false} NumRead(s: string, i: nat) returns (n: Num)
    requires i <= |s| && StrToUl(s, i).end > i
    ensures NumStands(s, SpacesEnd(s, i), n) && SpacesEnd(s, i) + NumLen(n) == StrToUl(s, i).end
    ensures StrToUl(s, i).end < |s| ==> !IsDigit(s[StrToUl(s, i).end])
  {
    var at, number := NumBegins(s, i);
    var end := DigitsEnd(s, number);
    SliceStands(s, number, end);
    n := Num(if number == at then NoSign else if s[at] == '-' then Minus else Plus, s[number..end]);
    DigitsStop(s, number);
  }

  lemma {:induction false} NumBegins(s: string, i: nat) returns (at: nat, number: nat)
    requires i <= |s| && StrToUl(s, i).end > i
    ensures at == SpacesEnd(s, i) <= number <= at + 1 && number < StrToUl(s, i).end == DigitsEnd(s, number)
    ensures number > at ==> s[at] == '-' || s[at] == '+'
  {
    at := SpacesEnd(s, i);
    number := if s[at] == '-' || s[at] == '+' then at + 1 else at;
  }

  lemma {:induction false} SpacesRead(s: string, i: nat) returns (w: string)
    requires i <= |s|
    ensures SpacesStand(s, i, w) && i + |w| == SpacesEnd(s, i)
  {
    w := s[i..SpacesEnd(s, i)];
    SpacesBefore(s, i);
    SliceStands(s, i, SpacesEnd(s, i));
  }

  lemma {:induction false} SepsRead(s: string, i: nat) returns (w: string)
    requires i <= |s|
    ensures SepsStand(s, i, w) && i + |w| == SepsEnd(s, i)
  {
    w := s[i..SepsEnd(s, i)];
    SepsBefore(s, i);
    SliceStands(s, i, SepsEnd(s, i));
  }

  ghost predicate EndsAs(s: string, left: nat, end: End) {
    EndStands(s, left, end) && left + EndLen(end) <= |s| && Detached(s, left + EndLen(end), end)
  }

  // The end of the entry whose first number ends at `left`.
  lemma {:induction false} EndRead(s: string, left: nat) returns (end: End)
    requires left <= |s| && (left < |s| ==> !IsDigit(s[left]))
    ensures EndsAs(s, left, end)
  {
    if DashAhead(s, left) {
      var mid := SpacesRead(s, left);
      end := DashRead(s, left, mid);
    } else {
      end := Same;
    }
  }

  lemma {:induction false} DashRead(s: string, left: nat, mid: string) returns (end: End)
    requires DashStands(s, left, mid)
    ensures EndsAs(s, left, end)
  {
    var begin := left + |mid| + 1;
    NoNumberAhead(s, begin);
    if NumberAhead(s, begin) {
      var after := SpacesRead(s, begin);
      var hi := NumRead(s, begin);
      end := To(mid, after, hi);
    } else {
      end := Open(mid);
    }
  }

  // The numbers of the entry at `at`.
  lemma {:induction false} NumsRead(s: string, at: nat) returns (lo: Num, end: End)
    requires at < |s| && !IsSpace(s[at]) && StrToUl(s, at).end > at
    ensures NumStands(s, at, lo) && EndsAs(s, at + NumLen(lo), end)
  {
    assert SpacesEnd(s, at) == at;
    lo := NumRead(s, at);
    end := EndRead(s, at + NumLen(lo));
  }

  lemma {:induction false} EntryRead(s: string, i: nat) returns (e: Entry, j: nat)
    requires i <= |s| && SepsEnd(s, i) < |s| && StrToUl(s, SepsEnd(s, i)).end > SepsEnd(s, i)
    ensures i < j <= |s| && Begins(s, i, e, j)
  {
    var before := SepsRead(s, i);
    SepsBefore(s, i);
    var lo, end := NumsRead(s, SepsEnd(s, i));
    e := Entry(before, lo, end);
    j := i + EntryLen(e);
  }

  lemma {:induction false} GoodHasNumber(s: string, at: nat)
    requires at <= |s| && ReadItem(s, at).Good?
    ensures StrToUl(s, at).end > at
  {
  }

  // What is left behind the first entry of a list that is accepted is accepted too.
  lemma {:induction false} ListedGoesOn(s: string, i: nat) returns (e: Entry, j: nat)
    requires i <= |s| && Decode(s, i).Listed? && SepsEnd(s, i) < |s|
    ensures i < j <= |s| && Begins(s, i, e, j) && Decode(s, j).Listed?
  {
    GoodHasNumber(s, SepsEnd(s, i));
    e, j := EntryRead(s, i);
    DecodeEntry(s, i, e, j);
  }

  lemma {:induction false} LaysNothing(s: string, i: nat)
    requires i <= |s| == SepsEnd(s, i)
    ensures Lays(s, i, [])
  {
    SepsBefore(s, i);
  }

  lemma {:induction false} LaysMore(s: string, i: nat, e: Entry, j: nat, more: seq<Entry>)
    requires Begins(s, i, e, j) && Lays(s, j, more)
    ensures Lays(s, i, [e] + more)
  {
    assert ([e] + more)[1..] == more;
  }

  // A list that is accepted is made of entries.
  lemma {:induction false} ListedIsLaid(s: string, i: nat) returns (entries: seq<Entry>)
    requires i <= |s| && Decode(s, i).Listed?
    ensures Lays(s, i, entries)
    decreases |s| - i
  {
    if SepsEnd(s, i) == |s| {
      entries := [];
      LaysNothing(s, i);
    } else {
      var e, j := ListedGoesOn(s, i);
      var more := ListedIsLaid(s, j);
      LaysMore(s, i, e, j, more);
      entries := [e] + more;
    }
  }

  // The lists that are accepted are those made of ids and ranges, with signs, spaces and
  // missing ends as may be, that are all in order and below 1024 as strtoul takes them.
  lemma {:induction false} ListedIff(s: string)
    ensures Decode(s, 0).Listed? <==> exists entries :: Lays(s, 0, entries) && AllFit(entries)
    ensures forall entries :: Lays(s, 0, entries) && AllFit(entries) ==> Decode(s, 0) == Listed(Spans(entries))
  {
    if Decode(s, 0).Listed? {
      var entries := ListedIsLaid(s, 0);
      DecodeLaid(s, 0, entries);
    }
    forall entries | Lays(s, 0, entries) && AllFit(entries) ensures Decode(s, 0) == Listed(Spans(entries)) {
      DecodeLaid(s, 0, entries);
    }
  }

  // A range whose end is missing, wherever it stands, is read as ending at zero, so it
  // is good exactly if it starts there.
  lemma {:induction false} OpenRangeIff(s: string, i: nat)
    requires i <= |s| && StrToUl(s, i).end > i && DashAhead(s, StrToUl(s, i).end)
    requires !NumberAhead(s, SpacesEnd(s, StrToUl(s, i).end) + 1)
    ensures ReadItem(s, i).Good? <==> !StrToUl(s, i).overflow && StrToUl(s, i).value == 0
  {
    NoNumberAhead(s, SpacesEnd(s, StrToUl(s, i).end) + 1);
  }

  // A minus sign, in any number, is taken modulo 2^64, so a few negative numbers pass for
  // small ids.
  lemma {:induction false} MinusIff(s: string, i: nat, sign: nat, end: nat)
    requires i <= sign < |s| && SpacesIn(s, i, sign) && s[sign] == '-' && NumberAt(s, sign + 1, end)
    ensures var r, v := StrToUl(s, i), ValueOf(s, sign + 1, end);
            && r.end == end
            && (!r.overflow && r.value < 1024 <==>
                v == 0 || 0xffff_ffff_ffff_fc01 <= v <= 0xffff_ffff_ffff_ffff)
  {
    ScanNumber(s, i, sign, sign + 1, end);
  }

  // ---- Printing ----

  // The text behind the label, from CPU i on.
  function Print(mask: seq<bool>, i: nat): (out: string)
    ensures out != ""
    decreases |mask| - i
  {
    if i >= |mask| then "\n"
    else if mask[i] then (" " + Decimal(i)) + Print(mask, i + 1)
    else Print(mask, i + 1)
  }

  // What cpuset_print writes behind its label.
  method CpusetPrint(mask: array<bool>) returns (out: string)
    requires mask.Length == CPU_SETSIZE
    ensures out == Print(mask[..], 0)
  {
    out := "";
    var i := 0;
    while i < CPU_SETSIZE
      invariant i <= CPU_SETSIZE && out + Print(mask[..], i) == Print(mask[..], 0)
    {
      if mask[i] {
        Regroup(out, " " + Decimal(i), Print(mask[..], i + 1));
        out := out + (" " + Decimal(i));
      }
      i := i + 1;
    }
    out := out + "\n";
  }

  lemma {:induction false} Regroup(u: string, v: string, w: string)
    ensures u + (v + w) == (u + v) + w
  {
  }

  // The CPUs of a mask from i on, in order.
  ghost function Cpus(mask: seq<bool>, i: nat): seq<nat>
    decreases |mask| - i
  {
    if i >= |mask| then []
    else if mask[i] then [i] + Cpus(mask, i + 1)
    else Cpus(mask, i + 1)
  }

  lemma {:induction false} CpusHold(mask: seq<bool>, i: nat, cpu: nat)
    ensures cpu in Cpus(mask, i) <==> i <= cpu < |mask| && mask[cpu]
    decreases |mask| - i
  {
    if i < |mask| { CpusHold(mask, i + 1, cpu); }
  }

  // Each of them stands behind a space.
  function OneCpu(cpu: nat): Entry { Entry(" ", Num(NoSign, Decimal(cpu)), Same) }

  function Entries(cpus: seq<nat>): seq<Entry> { seq(|cpus|, k requires 0 <= k < |cpus| => OneCpu(cpus[k])) }

  lemma {:induction false} StandsParts(s: string, i: nat, v: string, w: string)
    requires Stands(s, i, v + w)
    ensures Stands(s, i, v) && Stands(s, i + |v|, w)
  {
    forall k | 0 <= k < |v| ensures s[i + k] == v[k] { assert (v + w)[k] == v[k]; }
    forall k | 0 <= k < |w| ensures s[i + |v| + k] == w[k] {
      assert s[i + (|v| + k)] == (v + w)[|v| + k];
    }
  }

  // The rest of the text from CPU i on stands in s at `at`.
  ghost predicate PrintStands(s: string, at: nat, mask: seq<bool>, i: nat) {
    Stands(s, at, Print(mask, i)) && at + |Print(mask, i)| == |s|
  }

  lemma {:induction false} PrintSplit(s: string, at: nat, mask: seq<bool>, i: nat)
    requires i < |mask| && mask[i] && PrintStands(s, at, mask, i)
    ensures at < |s| && s[at] == ' ' && Stands(s, at + 1, Decimal(i)) && at + 1 + |Decimal(i)| <= |s|
    ensures PrintStands(s, at + 1 + |Decimal(i)|, mask, i + 1)
  {
    StandsParts(s, at, " " + Decimal(i), Print(mask, i + 1));
    StandsParts(s, at, " ", Decimal(i));
    assert s[at + 0] == " "[0];
  }

  // Behind a CPU comes no digit and no dash.
  lemma {:induction false} PrintDetaches(s: string, at: nat, mask: seq<bool>, i: nat)
    requires PrintStands(s, at, mask, i)
    ensures at <= |s| && Detached(s, at, Same)
    decreases |mask| - i
  {
    if i >= |mask| {
      assert s[at + 0] == "\n"[0];
      SpacesEndAt(s, at, at + 1);
    } else if mask[i] {
      PrintSplit(s, at, mask, i);
      StandsDigits(s, at + 1, Decimal(i));
      assert IsDigit(s[at + 1]);
      SpacesEndAt(s, at, at + 1);
    } else {
      PrintDetaches(s, at, mask, i + 1);
    }
  }

  lemma {:induction false} PrintHead(s: string, at: nat, mask: seq<bool>, i: nat)
    requires i < |mask| && mask[i] && PrintStands(s, at, mask, i)
    ensures var j := at + 1 + |Decimal(i)|; Begins(s, at, OneCpu(i), j) && PrintStands(s, j, mask, i + 1)
  {
    var j := at + 1 + |Decimal(i)|;
    PrintSplit(s, at, mask, i);
    PrintDetaches(s, j, mask, i + 1);
    CpuBegins(s, at, i, j);
  }

  lemma {:induction false} PrintLays(s: string, at: nat, mask: seq<bool>, i: nat)
    requires PrintStands(s, at, mask, i)
    ensures at <= |s| && Lays(s, at, Entries(Cpus(mask, i)))
    decreases |mask| - i
  {
    if i >= |mask| {
      assert s[at + 0] == "\n"[0];
    } else if mask[i] {
      var j := at + 1 + |Decimal(i)|;
      PrintHead(s, at, mask, i);
      PrintLays(s, j, mask, i + 1);
      LaysMore(s, at, OneCpu(i), j, Entries(Cpus(mask, i + 1)));
      assert Entries(Cpus(mask, i)) == [OneCpu(i)] + Entries(Cpus(mask, i + 1));
    } else {
      PrintLays(s, at, mask, i + 1);
    }
  }

  lemma {:induction false} CpuBegins(s: string, at: nat, cpu: nat, j: nat)
    requires at < |s| && s[at] == ' ' && Stands(s, at + 1, Decimal(cpu)) && j == at + 1 + |Decimal(cpu)| <= |s|
    requires Detached(s, j, Same)
    ensures Begins(s, at, OneCpu(cpu), j)
  {
  }

  lemma {:induction false} OneCpuSpan(cpu: nat)
    ensures SpanOf(OneCpu(cpu)) == Span(cpu, cpu)
  {
    WorthOfDecimal(cpu);
  }

  lemma {:induction false} CpusFit(mask: seq<bool>)
    requires |mask| == CPU_SETSIZE
    ensures AllFit(Entries(Cpus(mask, 0)))
  {
    var cpus := Cpus(mask, 0);
    forall k | 0 <= k < |cpus| ensures Fits(Entries(cpus)[k]) {
      assert cpus[k] in cpus;
      CpusHold(mask, 0, cpus[k]);
      OneCpuSpan(cpus[k]);
    }
  }

  lemma {:induction false} CoversCpus(cpus: seq<nat>, cpu: nat)
    ensures Covers(Spans(Entries(cpus)), cpu) <==> cpu in cpus
  {
    var spans := Spans(Entries(cpus));
    forall k | 0 <= k < |cpus| ensures spans[k] == Span(cpus[k], cpus[k]) { OneCpuSpan(cpus[k]); }
    if cpu in cpus {
      var k :| 0 <= k < |cpus| && cpus[k] == cpu;
      assert spans[k] == Span(cpu, cpu);
    }
  }

  // ---- Ids and ranges joined by any separator ----

  function SpanText(span: Span): (text: string)
    ensures text != ""
  {
    if span.lo == span.hi then Decimal(span.lo) else Decimal(span.lo) + ("-" + Decimal(span.hi))
  }

  // The spans from the k-th on, with a separator between them.
  function Joined(spans: seq<Span>, sep: char, k: nat): string
    requires k < |spans|
    decreases |spans| - k
  {
    if k + 1 == |spans| then SpanText(spans[k]) else SpanText(spans[k]) + ([sep] + Joined(spans, sep, k + 1))
  }

  function SpanEntry(before: string, span: Span): Entry {
    Entry(before, Num(NoSign, Decimal(span.lo)),
          if span.lo == span.hi then Same else To("", "", Num(NoSign, Decimal(span.hi))))
  }

  function SpanEntries(before: string, spans: seq<Span>, sep: char, k: nat): seq<Entry>
    decreases |spans| - k
  {
    if k >= |spans| then [] else [SpanEntry(before, spans[k])] + SpanEntries([sep], spans, sep, k + 1)
  }

  // The entry of the span stands in s at `at`, behind its separators.
  ghost predicate SpanStands(s: string, at: nat, span: Span) {
    var e := SpanEntry("", span);
    NumStands(s, at, e.lo) && EndStands(s, at + NumLen(e.lo), e.end) && at + SpanLen(span) <= |s|
  }

  function SpanLen(span: Span): nat { EntryLen(SpanEntry("", span)) }

  // From `at` on, s is w.
  ghost predicate Suffix(s: string, at: nat, w: string) { at <= |s| && s[at..] == w }

  lemma {:induction false} Peel(s: string, at: nat, v: string, rest: string)
    requires v != "" && Suffix(s, at, v + rest)
    ensures Stands(s, at, v) && Suffix(s, at + |v|, rest)
  {
    forall k | 0 <= k < |v| ensures s[at + k] == v[k] { assert s[at..][k] == (v + rest)[k]; }
    assert s[at + |v|..] == (v + rest)[|v|..];
  }

  lemma {:induction false} TwoNumbers(lo: string, hi: string, rest: string)
    ensures (lo + ("-" + hi)) + rest == lo + ("-" + (hi + rest))
  {
  }

  lemma {:induction false} TextStands(s: string, at: nat, span: Span, rest: string)
    requires Suffix(s, at, SpanText(span) + rest)
    ensures SpanStands(s, at, span) && Suffix(s, at + SpanLen(span), rest)
  {
    if span.lo == span.hi { Peel(s, at, Decimal(span.lo), rest); } else { RangeStands(s, at, span, rest); }
  }

  lemma {:induction false} RangeStands(s: string, at: nat, span: Span, rest: string)
    requires span.lo != span.hi
    requires Suffix(s, at, (Decimal(span.lo) + ("-" + Decimal(span.hi))) + rest)
    ensures SpanStands(s, at, span) && Suffix(s, at + SpanLen(span), rest)
  {
    PairStands(s, at, Decimal(span.lo), Decimal(span.hi), rest);
    SpanIsPair(s, at, span);
  }

  lemma {:induction false} SpanIsPair(s: string, at: nat, span: Span)
    requires span.lo != span.hi
    ensures var j := at + |Decimal(span.lo)|;
            && SpanLen(span) == |Decimal(span.lo)| + 1 + |Decimal(span.hi)|
            && (Stands(s, at, Decimal(span.lo)) && j < |s| && s[j] == '-' && Stands(s, j + 1, Decimal(span.hi)) ==>
                  SpanStands(s, at, span))
  {
  }

  lemma {:induction false} PairStands(s: string, at: nat, lo: string, hi: string, rest: string)
    requires lo != "" && hi != "" && Suffix(s, at, (lo + ("-" + hi)) + rest)
    ensures Stands(s, at, lo) && at + |lo| < |s| && s[at + |lo|] == '-' && Stands(s, at + |lo| + 1, hi)
    ensures Suffix(s, at + |lo| + 1 + |hi|, rest)
  {
    TwoNumbers(lo, hi, rest);
    Peel(s, at, lo, "-" + (hi + rest));
    Peel(s, at + |lo|, "-", hi + rest);
    assert s[at + |lo| + 0] == "-"[0];
    Peel(s, at + |lo| + 1, hi, rest);
  }

  // Where the k-th span begins.
  function Place(spans: seq<Span>, k: nat): nat
    requires k <= |spans|
  {
    if k == 0 then 0 else Place(spans, k - 1) + SpanLen(spans[k - 1]) + 1
  }

  lemma {:induction false} JoinedStep(s: string, spans: seq<Span>, sep: char, k: nat)
    requires k + 1 < |spans| && Suffix(s, Place(spans, k), Joined(spans, sep, k))
    ensures Suffix(s, Place(spans, k + 1), Joined(spans, sep, k + 1))
  {
    var at := Place(spans, k);
    TextStands(s, at, spans[k], [sep] + Joined(spans, sep, k + 1));
    PeelOne(s, at + SpanLen(spans[k]), sep, Joined(spans, sep, k + 1), Place(spans, k + 1));
  }

  lemma {:induction false} JoinedAt(s: string, spans: seq<Span>, sep: char, k: nat)
    requires k < |spans| && Suffix(s, 0, Joined(spans, sep, 0))
    ensures Suffix(s, Place(spans, k), Joined(spans, sep, k))
  {
    if k > 0 {
      JoinedAt(s, spans, sep, k - 1);
      JoinedStep(s, spans, sep, k - 1);
    }
  }

  // The k-th span stands in its place, with the separator or the end behind it.
  ghost predicate InPlace(s: string, spans: seq<Span>, sep: char, k: nat)
    requires k < |spans|
  {
    var j := Place(spans, k) + SpanLen(spans[k]);
    SpanStands(s, Place(spans, k), spans[k]) && if k + 1 == |spans| then j == |s| else j < |s| && s[j] == sep
  }

  lemma {:induction false} JoinedInPlace(s: string, spans: seq<Span>, sep: char, k: nat)
    requires k < |spans| && Suffix(s, 0, Joined(spans, sep, 0))
    ensures InPlace(s, spans, sep, k)
  {
    var at := Place(spans, k);
    JoinedAt(s, spans, sep, k);
    if k + 1 == |spans| {
      LastStands(s, at, spans[k]);
    } else {
      TextStands(s, at, spans[k], [sep] + Joined(spans, sep, k + 1));
      PeelOne(s, at + SpanLen(spans[k]), sep, Joined(spans, sep, k + 1), Place(spans, k + 1));
    }
  }

  lemma {:induction false} LastStands(s: string, at: nat, span: Span)
    requires Suffix(s, at, SpanText(span))
    ensures SpanStands(s, at, span) && at + SpanLen(span) == |s|
  {
    NothingBehind(SpanText(span));
    TextStands(s, at, span, "");
  }

  lemma {:induction false} NothingBehind(v: string)
    ensures v + "" == v
  {
  }

  lemma {:induction false} PeelOne(s: string, at: nat, c: char, rest: string, next: nat)
    requires Suffix(s, at, [c] + rest) && next == at + 1
    ensures at < |s| && s[at] == c && Suffix(s, next, rest)
  {
    Peel(s, at, [c], rest);
    assert s[at + 0] == [c][0];
  }

  // Behind an entry comes a separator and a digit, or the end.
  ghost predicate GapAhead(s: string, j: nat) {
    j < |s| ==> IsGap(s[j]) && j + 1 < |s| && IsDigit(s[j + 1])
  }

  lemma {:induction false} GapDetaches(s: string, j: nat, end: End)
    requires j <= |s| && !end.Open? && GapAhead(s, j)
    ensures Detached(s, j, end)
  {
    if j < |s| && IsSpace(s[j]) { SpacesEndAt(s, j, j + 1); }
  }

  lemma {:induction false} SpanStarts(s: string, at: nat, span: Span)
    requires SpanStands(s, at, span)
    ensures at < |s| && IsDigit(s[at])
  {
    StandsDigits(s, at, Decimal(span.lo));
  }

  lemma {:induction false} SpanBegins(s: string, at: nat, before: string, span: Span, j: nat)
    requires SepsStand(s, at, before) && SpanStands(s, at + |before|, span)
    requires j == at + |before| + SpanLen(span) && GapAhead(s, j)
    ensures Begins(s, at, SpanEntry(before, span), j)
  {
    GapDetaches(s, j, SpanEntry(before, span).end);
  }

  lemma {:induction false} GapStands(s: string, j: nat)
    requires j < |s| && IsGap(s[j])
    ensures SepsStand(s, j, [s[j]])
  {
  }

  ghost predicate AllInPlace(s: string, spans: seq<Span>, sep: char) {
    forall i: nat :: i < |spans| ==> InPlace(s, spans, sep, i)
  }

  lemma {:induction false} GapBehind(s: string, spans: seq<Span>, sep: char, k: nat)
    requires AllInPlace(s, spans, sep) && IsGap(sep) && k < |spans|
    ensures var j := Place(spans, k) + SpanLen(spans[k]);
            SpanStands(s, Place(spans, k), spans[k]) && j <= |s| && GapAhead(s, j)
  {
    assert InPlace(s, spans, sep, k);
    if k + 1 < |spans| {
      assert InPlace(s, spans, sep, k + 1);
      SpanStarts(s, Place(spans, k + 1), spans[k + 1]);
    }
  }

  // The entry of the k-th span, with `before` in front of it.
  lemma {:induction false} PlacedBegins(s: string, at: nat, before: string, spans: seq<Span>, sep: char, k: nat, j: nat)
    requires AllInPlace(s, spans, sep) && IsGap(sep) && k < |spans| && j == Place(spans, k) + SpanLen(spans[k])
    requires SepsStand(s, at, before) && at + |before| == Place(spans, k)
    ensures Begins(s, at, SpanEntry(before, spans[k]), j)
  {
    GapBehind(s, spans, sep, k);
    SpanBegins(s, at, before, spans[k], j);
  }

  lemma {:induction false} SepBehind(s: string, spans: seq<Span>, sep: char, k: nat, j: nat)
    requires AllInPlace(s, spans, sep) && IsGap(sep) && k < |spans| && j == Place(spans, k) + SpanLen(spans[k])
    ensures if k + 1 == |spans| then j == |s| else SepsStand(s, j, [sep]) && j + 1 == Place(spans, k + 1)
  {
    assert InPlace(s, spans, sep, k);
    if k + 1 < |spans| { GapStands(s, j); }
  }

  lemma {:induction false} PlacedLay(s: string, at: nat, before: string, spans: seq<Span>, sep: char, k: nat)
    requires AllInPlace(s, spans, sep) && IsGap(sep) && k <= |spans|
    requires k < |spans| ==> SepsStand(s, at, before) && at + |before| == Place(spans, k)
    requires k == |spans| ==> at == |s|
    ensures at <= |s| && Lays(s, at, SpanEntries(before, spans, sep, k))
    decreases |spans| - k
  {
    if k == |spans| {
      LaysNothing(s, at);
    } else {
      var j := Place(spans, k) + SpanLen(spans[k]);
      SepBehind(s, spans, sep, k, j);
      PlacedLay(s, j, [sep], spans, sep, k + 1);
      PlacedMore(s, at, before, spans, sep, k, j);
    }
  }

  lemma {:induction false} PlacedMore(s: string, at: nat, before: string, spans: seq<Span>, sep: char, k: nat, j: nat)
    requires AllInPlace(s, spans, sep) && IsGap(sep) && k < |spans| && j == Place(spans, k) + SpanLen(spans[k]) <= |s|
    requires SepsStand(s, at, before) && at + |before| == Place(spans, k)
    requires Lays(s, j, SpanEntries([sep], spans, sep, k + 1))
    ensures Lays(s, at, SpanEntries(before, spans, sep, k))
  {
    PlacedBegins(s, at, before, spans, sep, k, j);
    LaysMore(s, at, SpanEntry(before, spans[k]), j, SpanEntries([sep], spans, sep, k + 1));
  }

  // A list of ids and ranges in decimal is read as just these, whether a comma or any
  // white space stands between them.
  lemma {:induction false} DecodeJoined(spans: seq<Span>, sep: char)
    requires spans != [] && IsGap(sep)
    requires forall k :: 0 <= k < |spans| ==> spans[k].lo <= spans[k].hi < 1024
    ensures Decode(Joined(spans, sep, 0), 0) == Listed(spans)
  {
    var s := Joined(spans, sep, 0);
    WholeIsSuffix(s);
    forall i: nat | i < |spans| ensures InPlace(s, spans, sep, i) { JoinedInPlace(s, spans, sep, i); }
    DecodePlaced(s, spans, sep);
  }

  lemma {:induction false} WholeIsSuffix(s: string)
    ensures Suffix(s, 0, s)
  {
  }

  lemma {:induction false} DecodePlaced(s: string, spans: seq<Span>, sep: char)
    requires spans != [] && IsGap(sep) && AllInPlace(s, spans, sep)
    requires forall k :: 0 <= k < |spans| ==> spans[k].lo <= spans[k].hi < 1024
    ensures Decode(s, 0) == Listed(spans)
  {
    PlacedLay(s, 0, "", spans, sep, 0);
    EntriesMean("", spans, sep, 0);
    DecodeLaid(s, 0, SpanEntries("", spans, sep, 0));
    assert spans[0..] == spans;
  }

  lemma {:induction false} EntriesMean(before: string, spans: seq<Span>, sep: char, k: nat)
    requires k <= |spans| && forall i :: 0 <= i < |spans| ==> spans[i].lo <= spans[i].hi < 1024
    ensures AllFit(SpanEntries(before, spans, sep, k)) && Spans(SpanEntries(before, spans, sep, k)) == spans[k..]
    decreases |spans| - k
  {
    if k < |spans| {
      var entries := SpanEntries(before, spans, sep, k);
      WorthOfDecimal(spans[k].lo);
      WorthOfDecimal(spans[k].hi);
      EntriesMean([sep], spans, sep, k + 1);
      assert entries[1..] == SpanEntries([sep], spans, sep, k + 1);
      AllFitSplit(entries);
    }
  }

  // Reading what was printed gives the mask back.
  lemma {:induction false} DecodePrinted(mask: seq<bool>)
    requires |mask| == CPU_SETSIZE
    ensures var r := Decode(Print(mask, 0), 0); r.Listed? && Holds(mask, r.spans)
  {
    PrintLays(Print(mask, 0), 0, mask, 0);
    CpusFit(mask);
    DecodeLaid(Print(mask, 0), 0, Entries(Cpus(mask, 0)));
    forall cpu: nat | cpu < |mask| ensures mask[cpu] <==> Covers(Spans(Entries(Cpus(mask, 0))), cpu) {
      CpusHold(mask, 0, cpu);
      CoversCpus(Cpus(mask, 0), cpu);
    }
  }
}
