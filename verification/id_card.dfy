/** The ID card generator: random name, occupation and model, issue and
    expiry dates as day offsets from the fixed in-game date (negative is in
    the past), a serial "PREFIX-NNNN-LL", and two independent faults
    (expired, serial prefix mismatch) that make the card invalid. Every
    random draw is a parameter. */
module IdCard {
  import opened Common

  const Letters: string := "ABCDEFGHIJKLMNOPQRSTUVWXYZ"

  /** The chance, per fault, that Random.value falls below it. */
  const FaultChance: real := 0.15

  /** The serialized data lists; models and serialPrefixes pair by index. */
  datatype Lists = Lists(
    firstNames: seq<string>,
    occupations: seq<string>,
    models: seq<string>,
    serialPrefixes: seq<string>)

  const DefaultLists: Lists := Lists(
    ["Ava", "Milo", "Noah", "Iris", "Juno", "Ezra", "Nova", "Theo"],
    ["Technician", "Clerk", "Inspector", "Courier", "Mechanic", "Guard"],
    ["MX-11", "SR-04", "CLV-2", "DPT-7", "NX-03"],
    ["MX", "SR", "CV", "DP", "NX"])

  /** The three draws of one serial: the number and two letter indices. */
  datatype SerialDraws = SerialDraws(number: int, a: int, b: int)

  ghost predicate SerialDrawsOk(d: SerialDraws) {
    RangeDraw(d.number, 0, 10000) && RangeDraw(d.a, 0, |Letters|) && RangeDraw(d.b, 0, |Letters|)
  }

  /** Every draw the generator can make. The fault draws are only used when
      their roll is below FaultChance; `wrongPrefix` is the stream of
      indices the mismatch loop draws from. */
  datatype Draws = Draws(
    firstName: int,
    occupation: int,
    model: int,
    issuedDaysAgo: int,
    validDays: int,
    serial: SerialDraws,
    expiredRoll: real,
    expiredDaysAgo: int,
    expiredIssuedBack: int,
    mismatchRoll: real,
    wrongPrefix: seq<int>,
    wrongSerial: SerialDraws)

  /** The draws Random could have produced for these lists. */
  ghost predicate DrawsOk(lists: Lists, d: Draws) {
    && RangeDraw(d.firstName, 0, |lists.firstNames|)
    && RangeDraw(d.occupation, 0, |lists.occupations|)
    && RangeDraw(d.model, 0, |lists.models|)
    && RangeDraw(d.issuedDaysAgo, 1, 365 * 5)
    && RangeDraw(d.validDays, 365, 365 * 5)
    && SerialDrawsOk(d.serial)
    && UnitDraw(d.expiredRoll)
    && RangeDraw(d.expiredDaysAgo, 1, 366)
    && RangeDraw(d.expiredIssuedBack, 30, 365 * 3)
    && UnitDraw(d.mismatchRoll)
    && (forall i :: 0 <= i < |d.wrongPrefix| ==> RangeDraw(d.wrongPrefix[i], 0, |lists.serialPrefixes|))
    && SerialDrawsOk(d.wrongSerial)
  }

  /** Dates are day offsets from the in-game today. */
  datatype Card = Card(
    name: string,
    occupation: string,
    model: string,
    issued: int,
    expiry: int,
    serial: string,
    expired: bool,
    mismatch: bool,
    isValid: bool)

  /** Either a card, an array index out of range (an empty list, or fewer
      prefixes than models), or a mismatch loop that the supplied draws do
      not end. */
  datatype Generated = Generated(card: Card) | IndexOutOfRange | LoopNotEnded

  // ---------------------------------------------------------------------
  // Serial numbers

  function Digit(n: int): (c: char)
    requires 0 <= n < 10
    ensures '0' <= c <= '9'
  {
    "0123456789"[n]
  }

  function DigitValue(c: char): int {
    (c as int) - ('0' as int)
  }

  /** number.ToString("0000") for a number below 10000. */
  function Pad4(n: int): (s: string)
    requires 0 <= n < 10000
    ensures |s| == 4 && forall i :: 0 <= i < 4 ==> '0' <= s[i] <= '9'
  {
    [Digit(n / 1000), Digit(n / 100 % 10), Digit(n / 10 % 10), Digit(n % 10)]
  }

  /** The value a four-digit string spells. */
  function Value4(s: string): int
    requires |s| == 4
  {
    DigitValue(s[0]) * 1000 + DigitValue(s[1]) * 100 + DigitValue(s[2]) * 10 + DigitValue(s[3])
  }

  lemma DigitRoundTrip(k: int)
    requires 0 <= k < 10
    ensures DigitValue(Digit(k)) == k
  {
  }

  /** A number below 10000 is its four decimal digits weighted. */
  lemma DecimalSplit(n: int)
    requires 0 <= n < 10000
    ensures n / 1000 * 1000 + n / 100 % 10 * 100 + n / 10 % 10 * 10 + n % 10 == n
  {
    var q := n / 10;
    assert n == q * 10 + n % 10;
    assert q / 10 == n / 100;
    assert q == q / 10 * 10 + q % 10;
    var h := n / 100;
    assert h / 10 == n / 1000;
    assert h == h / 10 * 10 + h % 10;
  }

  lemma Pad4RoundTrip(n: int)
    requires 0 <= n < 10000
    ensures Value4(Pad4(n)) == n
  {
    DigitRoundTrip(n / 1000);
    DigitRoundTrip(n / 100 % 10);
    DigitRoundTrip(n / 10 % 10);
    DigitRoundTrip(n % 10);
    DecimalSplit(n);
  }

  function GenerateSerial(prefix: string, d: SerialDraws): (s: string)
    requires SerialDrawsOk(d)
    ensures |s| == |prefix| + 8
    ensures s[..|prefix|] == prefix && s[|prefix|] == '-' && s[|prefix| + 5] == '-'
    ensures forall i :: |prefix| + 1 <= i < |prefix| + 5 ==> '0' <= s[i] <= '9'
    ensures 'A' <= s[|prefix| + 6] <= 'Z' && 'A' <= s[|prefix| + 7] <= 'Z'
  {
    prefix + "-" + Pad4(d.number) + "-" + [Letters[d.a], Letters[d.b]]
  }

  /** The parts of a serial, read back from the end of the string. */
  datatype SerialParts = SerialParts(prefix: string, number: int, first: char, second: char)

  function ParseSerial(s: string): Option<SerialParts> {
    if |s| < 8 then None
    else
      var n := |s| - 8;
      var digits := s[n + 1..n + 5];
      if s[n] == '-' && s[n + 5] == '-' && (forall i :: 0 <= i < 4 ==> '0' <= digits[i] <= '9')
      then Some(SerialParts(s[..n], Value4(digits), s[n + 6], s[n + 7]))
      else None
  }

  /** Reading a generated serial back gives its prefix, its number and its
      two letters. */
  lemma SerialRoundTrip(prefix: string, d: SerialDraws)
    requires SerialDrawsOk(d)
    ensures ParseSerial(GenerateSerial(prefix, d)) == Some(SerialParts(prefix, d.number, Letters[d.a], Letters[d.b]))
  {
    var s := GenerateSerial(prefix, d);
    var n := |prefix|;
    assert s[n + 1..n + 5] == Pad4(d.number);
    Pad4RoundTrip(d.number);
  }

  // ---------------------------------------------------------------------
  // The mismatch loop

  /** Reference definition: the first drawn prefix that differs from the
      model's, with the number of draws spent reaching it. */
  function FirstDifferent(prefixes: seq<string>, prefix: string, draws: seq<int>): (r: Option<(string, nat)>)
    requires forall i :: 0 <= i < |draws| ==> 0 <= draws[i] < |prefixes|
    ensures r.None? <==> forall i :: 0 <= i < |draws| ==> prefixes[draws[i]] == prefix
    ensures r.Some? ==> 1 <= r.value.1 <= |draws| && r.value.0 == prefixes[draws[r.value.1 - 1]]
                        && r.value.0 != prefix
                        && forall j :: 0 <= j < r.value.1 - 1 ==> prefixes[draws[j]] == prefix
    decreases |draws|
  {
    if |draws| == 0 then None
    else if prefixes[draws[0]] != prefix then Some((prefixes[draws[0]], 1))
    else
      var rest := FirstDifferent(prefixes, prefix, draws[1..]);
      assert forall i :: 1 <= i < |draws| ==> draws[i] == draws[1..][i - 1];
      if rest.None? then None else Some((rest.value.0, rest.value.1 + 1))
  }

  /** The while loop of the mismatch fault: keep drawing a prefix until it
      differs from the model's. With a finite stream of draws it may run
      out, which is reported as None. */
  method PickWrongPrefix(prefixes: seq<string>, prefix: string, draws: seq<int>) returns (wrong: Option<string>, used: nat)
    requires forall i :: 0 <= i < |draws| ==> 0 <= draws[i] < |prefixes|
    ensures wrong.Some? ==> wrong.value != prefix && 1 <= used <= |draws| && wrong.value == prefixes[draws[used - 1]]
    ensures wrong.Some? ==> forall j :: 0 <= j < used - 1 ==> prefixes[draws[j]] == prefix
    ensures wrong.None? ==> used == |draws| && forall j :: 0 <= j < |draws| ==> prefixes[draws[j]] == prefix
    ensures var f := FirstDifferent(prefixes, prefix, draws);
      (wrong.None? <==> f.None?) && (wrong.Some? ==> wrong.value == f.value.0 && used == f.value.1)
  {
    var candidate := prefix;
    var i := 0;
    while candidate == prefix && i < |draws|
      invariant 0 <= i <= |draws|
      invariant forall j :: 0 <= j < i - 1 ==> prefixes[draws[j]] == prefix
      invariant candidate == prefix ==> forall j :: 0 <= j < i ==> prefixes[draws[j]] == prefix
      invariant candidate != prefix ==> i >= 1 && candidate == prefixes[draws[i - 1]]
      decreases |draws| - i
    {
      candidate := prefixes[draws[i]];
      i := i + 1;
    }
    if candidate == prefix {
      wrong, used := None, i;
    } else {
      wrong, used := Some(candidate), i;
    }
  }

  /** When every prefix in the list equals the model's own, no stream of
      draws ever ends the mismatch loop. */
  lemma MismatchLoopNeverEnds(prefixes: seq<string>, prefix: string, draws: seq<int>)
    requires forall i :: 0 <= i < |prefixes| ==> prefixes[i] == prefix
    requires forall i :: 0 <= i < |draws| ==> 0 <= draws[i] < |prefixes|
    ensures FirstDifferent(prefixes, prefix, draws).None?
  {
  }

  // ---------------------------------------------------------------------
  // GenerateID

  function GenerateId(lists: Lists, d: Draws): (r: Generated)
    requires DrawsOk(lists, d)
    ensures r.IndexOutOfRange? <==>
              |lists.firstNames| == 0 || |lists.occupations| == 0 || |lists.models| == 0
              || d.model >= |lists.serialPrefixes|
    ensures r.Generated? ==> r.card.isValid == !(r.card.expired || r.card.mismatch)
    ensures r.Generated? ==>
              && r.card.name == lists.firstNames[d.firstName]
              && r.card.occupation == lists.occupations[d.occupation]
              && r.card.model == lists.models[d.model]
              && r.card.expired == (d.expiredRoll < FaultChance)
              && r.card.mismatch == (d.mismatchRoll < FaultChance)
  {
    if d.firstName >= |lists.firstNames| || d.occupation >= |lists.occupations|
       || d.model >= |lists.models| || d.model >= |lists.serialPrefixes|
    then IndexOutOfRange
    else
      var prefix := lists.serialPrefixes[d.model];
      var issued := -d.issuedDaysAgo;
      var expiry := issued + d.validDays;
      var expired := d.expiredRoll < FaultChance;
      var expiry' := if expired then -d.expiredDaysAgo else expiry;
      var issued' := if expired then expiry' - d.expiredIssuedBack else issued;
      var mismatch := d.mismatchRoll < FaultChance;
      var wrong := if mismatch then FirstDifferent(lists.serialPrefixes, prefix, d.wrongPrefix) else None;
      if mismatch && wrong.None? then LoopNotEnded
      else
        var serial := if mismatch then GenerateSerial(wrong.value.0, d.wrongSerial) else GenerateSerial(prefix, d.serial);
        Generated(Card(lists.firstNames[d.firstName], lists.occupations[d.occupation], lists.models[d.model],
                       issued', expiry', serial, expired, mismatch, !(expired || mismatch)))
  }

  // ---------------------------------------------------------------------
  // Properties

  /** Validity depends on the two fault rolls and nothing else. */
  lemma ValidityOnlyFromFaults(lists: Lists, d1: Draws, d2: Draws)
    requires DrawsOk(lists, d1) && DrawsOk(lists, d2)
    requires d1.expiredRoll == d2.expiredRoll && d1.mismatchRoll == d2.mismatchRoll
    requires GenerateId(lists, d1).Generated? && GenerateId(lists, d2).Generated?
    ensures GenerateId(lists, d1).card.isValid == GenerateId(lists, d2).card.isValid
    ensures GenerateId(lists, d1).card.isValid <==> d1.expiredRoll >= FaultChance && d1.mismatchRoll >= FaultChance
  {
  }

  /** The serial of a card reads back as a prefix, a number in 0..9999 and
      two capital letters; it is the model's own prefix exactly when there
      is no mismatch fault. */
  lemma SerialMatchesModelUnlessMismatch(lists: Lists, d: Draws)
    requires DrawsOk(lists, d) && GenerateId(lists, d).Generated?
    ensures var card := GenerateId(lists, d).card;
      var parts := ParseSerial(card.serial);
      && parts.Some?
      && 0 <= parts.value.number < 10000
      && 'A' <= parts.value.first <= 'Z' && 'A' <= parts.value.second <= 'Z'
      && |card.serial| == |parts.value.prefix| + 8
      && (parts.value.prefix == lists.serialPrefixes[d.model] <==> !card.mismatch)
      && (!card.mismatch ==> card.model == lists.models[d.model])
  {
  }

  /** Date offsets. An expired card expires 1..365 days before today and
      was issued 30..1094 days before that. Otherwise it was issued 1..1824
      days ago and runs 365..1824 days from issue. */
  lemma DateRanges(lists: Lists, d: Draws)
    requires DrawsOk(lists, d) && GenerateId(lists, d).Generated?
    ensures var card := GenerateId(lists, d).card;
      && (card.expired ==> -365 <= card.expiry <= -1 && 30 <= card.expiry - card.issued <= 1094)
      && (!card.expired ==> -1824 <= card.issued <= -1 && 365 <= card.expiry - card.issued <= 1824)
  {
  }

  /** The validity rule never looks at the dates: a card whose expiry date
      is already past can still be valid. */
  lemma ValidCardCanBePastExpiry()
    ensures var d := Draws(0, 0, 0, 1824, 365, SerialDraws(0, 0, 0), 1.0, 1, 30, 1.0, [], SerialDraws(0, 0, 0));
      && DrawsOk(DefaultLists, d)
      && GenerateId(DefaultLists, d).Generated?
      && GenerateId(DefaultLists, d).card.isValid
      && GenerateId(DefaultLists, d).card.expiry < 0
  {
  }

  /** With the default lists every index lands in range, and a mismatch
      loop ends at the first draw that picks another model's prefix. */
  lemma DefaultListsInBounds(d: Draws)
    requires DrawsOk(DefaultLists, d)
    ensures !GenerateId(DefaultLists, d).IndexOutOfRange?
    ensures GenerateId(DefaultLists, d).LoopNotEnded? ==>
              forall i :: 0 <= i < |d.wrongPrefix| ==> d.wrongPrefix[i] == d.model
  {
  }
}
