/**
 Order numbers "CYN-<year>-<sequence>" under concurrent creation.

 A creator reads the largest live sequence of the year, proposes the next number and tries to insert it;
 the unique index refuses a number that is already live, and the creator reads again, up to five times.
 Reads and inserts of any number of creators interleave with each other and with deletions of orders.
 */
module OrderNumbers {
  import opened Common

  // ------------------------------------------------------------------------------------------
  // Formatting and parsing
  // ------------------------------------------------------------------------------------------

  function DigitChar(d: nat): char
    requires d < 10
  {
    "0123456789"[d]
  }

  function DigitValue(c: char): nat {
    if '0' <= c <= '9' then c as nat - '0' as nat else 0
  }

  function Digits(n: nat): string {
    if n < 10 then [DigitChar(n)] else Digits(n / 10) + [DigitChar(n % 10)]
  }

  function PadStart(s: string, width: nat): string
    decreases width - |s|
  {
    if |s| >= width then s else PadStart("0" + s, width)
  }

  function Prefix(year: nat): string {
    "CYN-" + Digits(year) + "-"
  }

  function Format(year: nat, sequence: nat): string {
    Prefix(year) + PadStart(Digits(sequence), 5)
  }

  /** `SPLIT_PART(s, '-', k)`: the k-th field between dashes, empty when there are fewer. */
  function SplitPart(s: string, k: nat): string
    requires k >= 1
  {
    if s == "" then ""
    else if s[0] == '-' then if k == 1 then "" else SplitPart(s[1..], k - 1)
    else if k == 1 then [s[0]] + SplitPart(s[1..], 1) else SplitPart(s[1..], k)
  }

  /** `CAST(... AS INTEGER)` of a field of decimal digits. */
  function Value(s: string): nat {
    if s == "" then 0 else 10 * Value(s[..|s| - 1]) + DigitValue(s[|s| - 1])
  }

  function Sequence(number: string): nat {
    Value(SplitPart(number, 3))
  }

  predicate NoDash(s: string) {
    forall i :: 0 <= i < |s| ==> s[i] != '-'
  }

  lemma DigitRoundTrip(d: nat)
    requires d < 10
    ensures DigitValue(DigitChar(d)) == d && DigitChar(d) != '-'
  {
    var all := "0123456789";
    assert all[d] == '0' + d as char;
  }

  lemma {:induction false} DigitsRoundTrip(n: nat)
    ensures Value(Digits(n)) == n && NoDash(Digits(n)) && Digits(n) != ""
  {
    DigitRoundTrip(n % 10);
    if n < 10 {
      assert Digits(n)[..0] == "";
    } else {
      DigitsRoundTrip(n / 10);
      var front := Digits(n / 10);
      assert (front + [DigitChar(n % 10)])[..|front|] == front;
    }
  }

  lemma {:induction false} LeadingZero(s: string)
    ensures Value("0" + s) == Value(s)
  {
    if s == "" {
      assert ("0" + s)[..0] == "";
    } else {
      LeadingZero(s[..|s| - 1]);
      assert ("0" + s)[..|s|] == "0" + s[..|s| - 1];
    }
  }

  lemma {:induction false} PadRoundTrip(s: string, width: nat)
    requires NoDash(s)
    ensures Value(PadStart(s, width)) == Value(s) && NoDash(PadStart(s, width))
    decreases width - |s|
  {
    if |s| < width {
      LeadingZero(s);
      PadRoundTrip("0" + s, width);
    }
  }

  /** Splitting after a dash-free field. */
  lemma {:induction false} SplitAfter(field: string, rest: string, k: nat)
    requires NoDash(field) && k >= 1
    ensures SplitPart(field + "-" + rest, k) == if k == 1 then field else SplitPart(rest, k - 1)
  {
    var s := field + "-" + rest;
    if field == "" {
      assert s[0] == '-' && s[1..] == rest;
    } else {
      SplitAfter(field[1..], rest, k);
      assert s[0] == field[0] && s[1..] == field[1..] + "-" + rest;
      assert [field[0]] + field[1..] == field;
    }
  }

  lemma {:induction false} SplitLast(field: string)
    requires NoDash(field)
    ensures SplitPart(field, 1) == field
  {
    if field != "" {
      SplitLast(field[1..]);
    }
  }

  lemma PrefixParts(year: nat, rest: string)
    ensures Prefix(year) + rest == "CYN" + "-" + (Digits(year) + "-" + rest)
  {
    hide Digits;
  }

  /** The second field of anything that starts with a year's prefix is that year. */
  lemma SecondField(year: nat, rest: string)
    ensures SplitPart(Prefix(year) + rest, 2) == Digits(year)
    ensures NoDash(rest) ==> SplitPart(Prefix(year) + rest, 3) == rest
  {
    hide Digits, SplitPart, Prefix;
    DigitsRoundTrip(year);
    PrefixParts(year, rest);
    var tail := Digits(year) + "-" + rest;
    SplitAfter("CYN", tail, 2);
    SplitAfter("CYN", tail, 3);
    SplitAfter(Digits(year), rest, 1);
    SplitAfter(Digits(year), rest, 2);
    if NoDash(rest) {
      SplitLast(rest);
    }
  }

  /** Parsing a formatted number gives its sequence back, also beyond the five padded digits. */
  lemma ParseFormat(year: nat, sequence: nat)
    ensures Sequence(Format(year, sequence)) == sequence
    ensures SplitPart(Format(year, sequence), 2) == Digits(year)
  {
    hide Digits, PadStart, SplitPart, Value, Prefix;
    DigitsRoundTrip(sequence);
    PadRoundTrip(Digits(sequence), 5);
    SecondField(year, PadStart(Digits(sequence), 5));
  }

  lemma FormatInjective(year: nat, sequence: nat, year': nat, sequence': nat)
    requires Format(year, sequence) == Format(year', sequence')
    ensures year == year' && sequence == sequence'
  {
    ParseFormat(year, sequence);
    ParseFormat(year', sequence');
    DigitsRoundTrip(year);
    DigitsRoundTrip(year');
  }

  lemma {:induction false} PadShape(s: string, width: nat)
    ensures |PadStart(s, width)| == if |s| >= width then |s| else width
    ensures |s| <= |PadStart(s, width)| && PadStart(s, width)[|PadStart(s, width)| - |s|..] == s
    ensures forall i :: 0 <= i < |PadStart(s, width)| - |s| ==> PadStart(s, width)[i] == '0'
    decreases width - |s|
  {
    if |s| < width {
      PadShape("0" + s, width);
      var padded := PadStart("0" + s, width);
      assert padded[|padded| - |s| - 1..] == "0" + s;
      assert padded[|padded| - |s|..] == padded[|padded| - |s| - 1..][1..];
    }
  }

  lemma {:induction false} DigitsShape(n: nat)
    ensures forall i :: 0 <= i < |Digits(n)| ==> '0' <= Digits(n)[i] <= '9'
    ensures n > 0 ==> Digits(n)[0] != '0'
  {
    DigitIs(n % 10);
    if n >= 10 {
      DigitsShape(n / 10);
    }
  }

  lemma DigitIs(d: nat)
    requires d < 10
    ensures DigitChar(d) as int == '0' as int + d
  {
    var all := "0123456789";
    assert all[d] == '0' + d as char;
  }

  /**
   "CYN-", the year in decimal digits, "-", and the decimal digits of the sequence behind zeros that fill them
   up to five; a number of more digits stands as it is.
   */
  lemma FormatShape(year: nat, sequence: nat)
    ensures var number, digits := Format(year, sequence), Digits(sequence);
            var field := number[|"CYN-" + Digits(year) + "-"|..];
            && number == "CYN-" + Digits(year) + "-" + field
            && |field| == (if |digits| >= 5 then |digits| else 5)
            && (forall i :: 0 <= i < |field| - |digits| ==> field[i] == '0') && field[|field| - |digits|..] == digits
  {
    hide Digits, PadStart;
    PadShape(Digits(sequence), 5);
    assert Format(year, sequence)[|"CYN-" + Digits(year) + "-"|..] == PadStart(Digits(sequence), 5);
  }

  /** `LIKE 'CYN-<year>-%'`. */
  predicate OfYear(number: string, year: nat) {
    Prefix(year) <= number
  }

  /** The pattern selects exactly the numbers of its year. */
  lemma OfYearExactly(year: nat, year': nat, sequence: nat)
    ensures OfYear(Format(year', sequence), year) <==> year == year'
  {
    hide Digits, SplitPart, Prefix, PadStart;
    var number := Format(year', sequence);
    if OfYear(number, year) {
      var rest := number[|Prefix(year)|..];
      assert number == Prefix(year) + rest;
      SecondField(year, rest);
      ParseFormat(year', sequence);
      DigitsRoundTrip(year);
      DigitsRoundTrip(year');
    }
  }

  // ------------------------------------------------------------------------------------------
  // The protocol
  // ------------------------------------------------------------------------------------------

  type CreatorId = nat

  /** Every order ever inserted, in commit order; `live` holds the positions not deleted since. */
  datatype State = State(log: seq<string>, live: set<nat>, creators: map<CreatorId, Creator>)

  datatype Pc = Reading | Proposed(number: string) | Stored(position: nat) | GaveUp

  /** `charges` names, per refused insert, the order that had taken the number. */
  datatype Creator = Creator(pc: Pc, startedAt: nat, readAt: nat, charges: seq<nat>)

  datatype Step =
    | Begin(c: CreatorId)
    | Read(c: CreatorId, year: nat)
    | TryInsert(c: CreatorId)
    | Delete(position: nat)

  const MAX_ATTEMPTS := 5

  /** `COALESCE(MAX(sequence), 0)` over the live numbers of a year among the first k orders. */
  function MaxSequence(log: seq<string>, live: set<nat>, year: nat, k: nat): nat
    requires k <= |log|
  {
    if k == 0 then 0
    else
      var before := MaxSequence(log, live, year, k - 1);
      if k - 1 in live && OfYear(log[k - 1], year) && Sequence(log[k - 1]) > before
      then Sequence(log[k - 1]) else before
  }

  /** The live order that has this number. */
  function FindLive(log: seq<string>, live: set<nat>, number: string, k: nat): (i: Option<nat>)
    requires k <= |log|
    ensures i.Some? ==> i.value < k && i.value in live && log[i.value] == number
    ensures i.None? ==> forall j :: 0 <= j < k && j in live ==> log[j] != number
  {
    if k == 0 then None
    else if k - 1 in live && log[k - 1] == number then Some(k - 1)
    else FindLive(log, live, number, k - 1)
  }

  function Apply(s: State, step: Step): State {
    match step
    case Begin(c) =>
      if c in s.creators then s
      else s.(creators := s.creators[c := Creator(Reading, |s.log|, |s.log|, [])])
    case Read(c, year) =>
      if c !in s.creators || s.creators[c].pc != Reading then s
      else
        var number := Format(year, MaxSequence(s.log, s.live, year, |s.log|) + 1);
        s.(creators := s.creators[c := s.creators[c].(pc := Proposed(number), readAt := |s.log|)])
    case TryInsert(c) =>
      if c !in s.creators || !s.creators[c].pc.Proposed? then s
      else
        var me := s.creators[c];
        var taken := FindLive(s.log, s.live, me.pc.number, |s.log|);
        if taken.None? then
          State(s.log + [me.pc.number], s.live + {|s.log|}, s.creators[c := me.(pc := Stored(|s.log|))])
        else
          var charges := me.charges + [taken.value];
          s.(creators := s.creators[c := me.(charges := charges,
                                             pc := if |charges| >= MAX_ATTEMPTS then GaveUp else Reading)])
    case Delete(i) => s.(live := s.live - {i})
  }

  function Exec(s: State, steps: seq<Step>): State {
    if steps == [] then s else Apply(Exec(s, steps[..|steps| - 1]), steps[|steps| - 1])
  }

  const EMPTY := State([], {}, map[])

  // ------------------------------------------------------------------------------------------
  // Reads
  // ------------------------------------------------------------------------------------------

  lemma {:induction false} MaxSequenceBounds(log: seq<string>, live: set<nat>, year: nat, k: nat, i: nat)
    requires i < k <= |log| && i in live && OfYear(log[i], year)
    ensures Sequence(log[i]) <= MaxSequence(log, live, year, k)
  {
    if i < k - 1 {
      MaxSequenceBounds(log, live, year, k - 1, i);
    }
  }

  /** The maximum is the sequence of a live order of the year, or 0 when there is none. */
  lemma {:induction false} MaxSequenceAttained(log: seq<string>, live: set<nat>, year: nat, k: nat)
    requires k <= |log|
    ensures MaxSequence(log, live, year, k) > 0
            ==> exists i :: 0 <= i < k && i in live && OfYear(log[i], year)
                            && Sequence(log[i]) == MaxSequence(log, live, year, k)
  {
    hide OfYear, Sequence;
    if k > 0 {
      MaxSequenceAttained(log, live, year, k - 1);
    }
  }

  /** A proposed number is larger than every live number of its year at the moment of the read. */
  lemma ProposalIsLarger(s: State, c: CreatorId, year: nat, i: nat)
    requires c in s.creators && s.creators[c].pc == Reading
    requires i < |s.log| && i in s.live && OfYear(s.log[i], year)
    ensures var me := Apply(s, Read(c, year)).creators[c];
            me.pc.Proposed? && OfYear(me.pc.number, year) && Sequence(s.log[i]) < Sequence(me.pc.number)
  {
    var next := MaxSequence(s.log, s.live, year, |s.log|) + 1;
    ParseFormat(year, next);
    OfYearExactly(year, year, next);
    MaxSequenceBounds(s.log, s.live, year, |s.log|, i);
  }

  /** In particular no live order has the proposed number when it is proposed. */
  lemma ProposalIsFree(log: seq<string>, live: set<nat>, year: nat, i: nat)
    requires i < |log| && i in live
    ensures log[i] != Format(year, MaxSequence(log, live, year, |log|) + 1)
  {
    var next := MaxSequence(log, live, year, |log|) + 1;
    if log[i] == Format(year, next) {
      ParseFormat(year, next);
      OfYearExactly(year, year, next);
      MaxSequenceBounds(log, live, year, |log|, i);
    }
  }

  // ------------------------------------------------------------------------------------------
  // The invariant of every interleaving
  // ------------------------------------------------------------------------------------------

  predicate Increasing(xs: seq<nat>) {
    forall i, j :: 0 <= i < j < |xs| ==> xs[i] < xs[j]
  }

  predicate CreatorOk(s: State, me: Creator) {
    && me.startedAt <= me.readAt <= |s.log|
    && Increasing(me.charges)
    && (forall k :: 0 <= k < |me.charges| ==> me.startedAt <= me.charges[k] < |s.log|)
    && (me.pc.Proposed? ==>
          && |me.charges| < 5
          && (forall k :: 0 <= k < |me.charges| ==> me.charges[k] < me.readAt)
          && (forall i :: 0 <= i < me.readAt && i in s.live ==> s.log[i] != me.pc.number))
    && (me.pc.Reading? ==> |me.charges| < 5)
    && (me.pc.GaveUp? ==> |me.charges| == 5)
    && (me.pc.Stored? ==> me.startedAt <= me.pc.position < |s.log| && me.pc.position !in me.charges)
  }

  predicate NumbersUnique(s: State) {
    && (forall i :: i in s.live ==> i < |s.log|)
    && (forall i, j :: i in s.live && j in s.live && i < |s.log| && j < |s.log| && i != j ==> s.log[i] != s.log[j])
  }

  predicate Inv(s: State) {
    NumbersUnique(s) && forall c :: c in s.creators ==> CreatorOk(s, s.creators[c])
  }

  lemma ReadKeeps(s: State, c: CreatorId, year: nat)
    requires Inv(s)
    ensures Inv(Apply(s, Read(c, year)))
  {
    hide Format, MaxSequence;
    var t := Apply(s, Read(c, year));
    if t != s {
      forall i | 0 <= i < |s.log| && i in s.live
        ensures s.log[i] != t.creators[c].pc.number
      {
        ProposalIsFree(s.log, s.live, year, i);
      }
      forall d | d in t.creators
        ensures CreatorOk(t, t.creators[d])
      {
        assert CreatorOk(s, s.creators[d]);
      }
    }
  }

  /** A creator stays consistent when orders are only added at the end and old ones only deleted. */
  lemma CreatorFrame(s: State, t: State, me: Creator)
    requires CreatorOk(s, me) && s.log <= t.log
    requires forall i :: 0 <= i < |s.log| && i in t.live ==> i in s.live
    ensures CreatorOk(t, me)
  {
    hide Increasing;
  }

  /** A refused number was taken by an order committed after the read, so after all earlier charges. */
  lemma RefusalIsCharged(s: State, c: CreatorId)
    requires Inv(s) && c in s.creators && s.creators[c].pc.Proposed?
    ensures var before, after := s.creators[c], Apply(s, TryInsert(c)).creators[c];
            || (after.pc == Stored(|s.log|) && after.charges == before.charges)
            || (exists i :: before.readAt <= i < |s.log| && i in s.live && s.log[i] == before.pc.number
                            && after.charges == before.charges + [i])
  {
    hide FindLive;
    var me := s.creators[c];
    assert CreatorOk(s, me);
    var taken := FindLive(s.log, s.live, me.pc.number, |s.log|);
    if taken.Some? {
      assert me.readAt <= taken.value;
    }
  }

  lemma AcceptKeeps(s: State, c: CreatorId)
    requires Inv(s) && c in s.creators && s.creators[c].pc.Proposed?
    requires forall i :: 0 <= i < |s.log| && i in s.live ==> s.log[i] != s.creators[c].pc.number
    ensures var me := s.creators[c];
            Inv(State(s.log + [me.pc.number], s.live + {|s.log|}, s.creators[c := me.(pc := Stored(|s.log|))]))
  {
    var me := s.creators[c];
    var t := State(s.log + [me.pc.number], s.live + {|s.log|}, s.creators[c := me.(pc := Stored(|s.log|))]);
    assert CreatorOk(s, me);
    CreatorFrame(s, t, me.(pc := Reading));
    assert CreatorOk(t, t.creators[c]);
    hide CreatorOk;
    forall d | d in s.creators && d != c
      ensures CreatorOk(t, s.creators[d])
    {
      CreatorFrame(s, t, s.creators[d]);
    }
  }

  lemma InsertKeeps(s: State, c: CreatorId)
    requires Inv(s)
    ensures Inv(Apply(s, TryInsert(c)))
  {
    hide FindLive, NumbersUnique;
    if c in s.creators && s.creators[c].pc.Proposed? {
      var me := s.creators[c];
      var taken := FindLive(s.log, s.live, me.pc.number, |s.log|);
      assert CreatorOk(s, me);
      if taken.None? {
        AcceptKeeps(s, c);
      } else {
        var t := Apply(s, TryInsert(c));
        assert CreatorOk(t, t.creators[c]);
        SameTables(s, t);
        forall d | d in s.creators && d != c
          ensures CreatorOk(t, s.creators[d])
        {
          CreatorFrame(s, t, s.creators[d]);
        }
      }
    }
  }

  lemma SameTables(s: State, t: State)
    requires NumbersUnique(s) && t.log == s.log && t.live == s.live
    ensures NumbersUnique(t)
  {
  }

  lemma StepKeeps(s: State, step: Step)
    requires Inv(s)
    ensures Inv(Apply(s, step))
  {
    match step
    case Read(c, year) => ReadKeeps(s, c, year);
    case TryInsert(c) => InsertKeeps(s, c);
    case Begin(c) =>
      forall d | d in Apply(s, step).creators
        ensures CreatorOk(Apply(s, step), Apply(s, step).creators[d])
      {
        assert d in s.creators ==> CreatorOk(s, s.creators[d]);
      }
    case Delete(i) =>
      forall d | d in s.creators
        ensures CreatorOk(Apply(s, step), s.creators[d])
      {
        assert CreatorOk(s, s.creators[d]);
      }
  }

  lemma {:induction false} RunKeeps(s: State, steps: seq<Step>)
    requires Inv(s)
    ensures Inv(Exec(s, steps))
  {
    hide Apply, Inv;
    if steps != [] {
      RunKeeps(s, steps[..|steps| - 1]);
      StepKeeps(Exec(s, steps[..|steps| - 1]), steps[|steps| - 1]);
    }
  }

  lemma ReachableInv(steps: seq<Step>)
    ensures Inv(Exec(EMPTY, steps))
  {
    hide Exec;
    RunKeeps(EMPTY, steps);
  }

  /** n increasing positions from `low` on, all below `high`, need high - low >= n. */
  lemma {:induction false} IncreasingSpread(xs: seq<nat>, low: nat, high: nat)
    requires Increasing(xs) && forall k :: 0 <= k < |xs| ==> low <= xs[k] < high
    requires low <= high
    ensures low + |xs| <= high
  {
    if xs != [] {
      var n := |xs| - 1;
      assert forall k :: 0 <= k < n ==> xs[k] < xs[n];
      IncreasingSpread(xs[..n], low, xs[n]);
    }
  }

  /** The state after the first k steps. */
  function After(steps: seq<Step>, k: nat): State
    requires k <= |steps|
  {
    Exec(EMPTY, steps[..k])
  }

  /** Step j is a read of c that proposed this number. */
  predicate Proposes(steps: seq<Step>, c: CreatorId, j: nat, number: string) {
    && j < |steps| && steps[j].Read? && steps[j].c == c
    && c in After(steps, j).creators && After(steps, j).creators[c].pc == Reading
    && var s := After(steps, j);
       number == Format(steps[j].year, MaxSequence(s.log, s.live, steps[j].year, |s.log|) + 1)
  }

  /**
   The m-th charge of c explained: step j proposed a number, step k is the insert that was refused for the
   m-th time, and the charged order carries that number, was live then, and was committed between the two.
   */
  predicate Explains(steps: seq<Step>, c: CreatorId, m: nat, j: nat, k: nat) {
    && j < k < |steps| && steps[k] == TryInsert(c)
    && c in Exec(EMPTY, steps).creators && m < |Exec(EMPTY, steps).creators[c].charges|
    && c in After(steps, k).creators && |After(steps, k).creators[c].charges| == m
    && var position, at := Exec(EMPTY, steps).creators[c].charges[m], After(steps, k);
       && at.creators[c].pc.Proposed? && Proposes(steps, c, j, at.creators[c].pc.number)
       && |After(steps, j).log| <= position < |at.log| && position in at.live
       && at.log[position] == at.creators[c].pc.number
  }

  ghost predicate Explained(steps: seq<Step>, c: CreatorId, m: nat) {
    exists j: nat, k: nat :: Explains(steps, c, m, j, k)
  }

  lemma PrefixAfter(steps: seq<Step>, n: nat, k: nat)
    requires k <= n <= |steps|
    ensures After(steps[..n], k) == After(steps, k)
  {
    assert steps[..n][..k] == steps[..k];
  }

  /** A proposal that was not there before comes from a read, and notes how long the log was. */
  lemma ProposesNow(s: State, step: Step, c: CreatorId)
    requires c in Apply(s, step).creators && Apply(s, step).creators[c].pc.Proposed?
    requires c !in s.creators || s.creators[c] != Apply(s, step).creators[c]
    ensures step.Read? && step.c == c && c in s.creators && s.creators[c].pc == Reading
    ensures var me := Apply(s, step).creators[c];
            me.pc.number == Format(step.year, MaxSequence(s.log, s.live, step.year, |s.log|) + 1) && me.readAt == |s.log|
  {
    hide Format, MaxSequence, FindLive;
  }

  /** A pending proposal stems from a read of this run, at which the log was as long as the creator noted. */
  lemma {:induction false} ProposedByRead(steps: seq<Step>, c: CreatorId) returns (j: nat)
    requires c in Exec(EMPTY, steps).creators && Exec(EMPTY, steps).creators[c].pc.Proposed?
    ensures j < |steps| && Proposes(steps, c, j, Exec(EMPTY, steps).creators[c].pc.number)
    ensures |After(steps, j).log| == Exec(EMPTY, steps).creators[c].readAt
  {
    hide Apply, Format, MaxSequence;
    var n := |steps| - 1;
    var before, me := Exec(EMPTY, steps[..n]), Exec(EMPTY, steps).creators[c];
    if c in before.creators && before.creators[c] == me {
      j := ProposedByRead(steps[..n], c);
      PrefixAfter(steps, n, j);
    } else {
      ProposesNow(before, steps[n], c);
      j := n;
    }
  }

  /** Charges are only ever added, and only by the creator's own insert. */
  lemma ChargesGrow(s: State, step: Step, c: CreatorId)
    ensures c in s.creators
            ==> c in Apply(s, step).creators && s.creators[c].charges <= Apply(s, step).creators[c].charges
    ensures c in Apply(s, step).creators && Apply(s, step).creators[c].charges != []
            ==> c in s.creators
                && ((step == TryInsert(c) && s.creators[c].pc.Proposed?)
                    || Apply(s, step).creators[c].charges == s.creators[c].charges)
  {
    hide Format, MaxSequence, FindLive;
  }

  lemma ExplainsLater(steps: seq<Step>, n: nat, c: CreatorId, m: nat, j: nat, k: nat)
    requires n <= |steps| && Explains(steps[..n], c, m, j, k)
    requires c in Exec(EMPTY, steps).creators
    requires Exec(EMPTY, steps[..n]).creators[c].charges <= Exec(EMPTY, steps).creators[c].charges
    ensures Explains(steps, c, m, j, k)
  {
    hide Exec, Format, MaxSequence;
    PrefixAfter(steps, n, j);
    PrefixAfter(steps, n, k);
  }

  /**
   Over every run, every charge of every creator names an order that carries the refused number and was
   committed between the read that proposed this number and the insert that was refused.
   */
  lemma {:induction false} ChargeIsExplained(steps: seq<Step>, c: CreatorId, m: nat) returns (j: nat, k: nat)
    requires c in Exec(EMPTY, steps).creators && m < |Exec(EMPTY, steps).creators[c].charges|
    ensures Explains(steps, c, m, j, k)
  {
    hide Apply, Inv, Format, MaxSequence, Proposes, Explains;
    var n := |steps| - 1;
    var before := Exec(EMPTY, steps[..n]);
    ChargesGrow(before, steps[n], c);
    if m < |before.creators[c].charges| {
      j, k := ChargeIsExplained(steps[..n], c, m);
      ExplainsLater(steps, n, c, m, j, k);
    } else {
      ReachableInv(steps[..n]);
      RefusalIsCharged(before, c);
      k := n;
      j := ProposedByRead(steps[..n], c);
      PrefixAfter(steps, n, j);
      ExplainsNow(steps, c, m, j);
    }
  }

  lemma ExplainsNow(steps: seq<Step>, c: CreatorId, m: nat, j: nat)
    requires |steps| > 0 && steps[|steps| - 1] == TryInsert(c)
    requires var s := Exec(EMPTY, steps[..|steps| - 1]);
             && c in s.creators && s.creators[c].pc.Proposed? && m == |s.creators[c].charges|
             && Proposes(steps[..|steps| - 1], c, j, s.creators[c].pc.number)
             && |After(steps, j).log| == s.creators[c].readAt
             && c in Exec(EMPTY, steps).creators && m < |Exec(EMPTY, steps).creators[c].charges|
             && exists i :: s.creators[c].readAt <= i < |s.log| && i in s.live && s.log[i] == s.creators[c].pc.number
                            && Exec(EMPTY, steps).creators[c].charges == s.creators[c].charges + [i]
    ensures Explains(steps, c, m, j, |steps| - 1)
  {
    hide Exec, Format, MaxSequence;
    PrefixAfter(steps, |steps| - 1, j);
  }

  /**
   In every reachable state each creator's refused inserts are charged to distinct orders, each carrying the
   refused number and committed between the read that proposed it and the refused insert; so a creator
   gives up only when at least five other orders were committed since it started.
   */
  lemma RefusalsAreOthersOrders(steps: seq<Step>, c: CreatorId)
    requires c in Exec(EMPTY, steps).creators
    ensures var s := Exec(EMPTY, steps);
            var me := s.creators[c];
            && (forall m :: 0 <= m < |me.charges| ==> Explained(steps, c, m))
            && Increasing(me.charges)
            && (forall k :: 0 <= k < |me.charges| ==> me.startedAt <= me.charges[k] < |s.log|)
            && (me.pc.Stored? ==> me.pc.position !in me.charges)
            && |me.charges| <= |s.log| - me.startedAt
            && (me.pc.GaveUp? ==> |s.log| - me.startedAt >= 5 && |me.charges| == 5)
  {
    hide Exec, Explains;
    ReachableInv(steps);
    var s := Exec(EMPTY, steps);
    assert CreatorOk(s, s.creators[c]);
    IncreasingSpread(s.creators[c].charges, s.creators[c].startedAt, |s.log|);
    forall m | 0 <= m < |s.creators[c].charges|
      ensures Explained(steps, c, m)
    {
      var j, k := ChargeIsExplained(steps, c, m);
    }
  }

  // ------------------------------------------------------------------------------------------
  // The service
  // ------------------------------------------------------------------------------------------

  lemma {:induction false} ExecConcat(s: State, a: seq<Step>, b: seq<Step>)
    ensures Exec(s, a + b) == Exec(Exec(s, a), b)
  {
    hide Apply;
    if b == [] {
      assert a + b == a;
    } else {
      ExecConcat(s, a, b[..|b| - 1]);
      assert (a + b)[..|a + b| - 1] == a + b[..|b| - 1];
    }
  }

  lemma ExecOne(s: State, step: Step)
    ensures Exec(s, [step]) == Apply(s, step)
  {
    assert [step][..0] == [];
    assert Exec(s, []) == s;
  }

  class OrderTable {
    var log: seq<string>
    var live: set<nat>
    var creators: map<CreatorId, Creator>

    ghost function Snapshot(): State
      reads this
    {
      State(log, live, creators)
    }

    constructor ()
      ensures Snapshot() == EMPTY
    {
      log, live, creators := [], {}, map[];
    }

    method GenerateOrderNumber(year: nat) returns (number: string)
      ensures number == Format(year, MaxSequence(log, live, year, |log|) + 1)
      ensures var last := Sequence(number) - 1;
              && number == Format(year, last + 1)
              && (forall i :: 0 <= i < |log| && i in live && OfYear(log[i], year) ==> Sequence(log[i]) <= last)
              && (last > 0 ==> exists i :: 0 <= i < |log| && i in live && OfYear(log[i], year) && Sequence(log[i]) == last)
    {
      ParseFormat(year, MaxSequence(log, live, year, |log|) + 1);
      forall i | 0 <= i < |log| && i in live && OfYear(log[i], year)
        ensures Sequence(log[i]) <= MaxSequence(log, live, year, |log|)
      {
        MaxSequenceBounds(log, live, year, |log|, i);
      }
      MaxSequenceAttained(log, live, year, |log|);
      hide Format, Sequence, OfYear;
      var maxSeq := 0;
      for k := 0 to |log|
        invariant maxSeq == MaxSequence(log, live, year, k)
      {
        if k in live && OfYear(log[k], year) && Sequence(log[k]) > maxSeq {
          maxSeq := Sequence(log[k]);
        }
      }
      number := Format(year, maxSeq + 1);
    }

    /** What other clients of the table do between this creator's read and its insert. */
    method Interfere(steps: seq<Step>)
      modifies this
      ensures Snapshot() == Exec(old(Snapshot()), steps)
    {
      hide Apply;
      var s := State(log, live, creators);
      for i := 0 to |steps|
        invariant s == Exec(old(Snapshot()), steps[..i])
      {
        assert steps[..i + 1][..i] == steps[..i];
        s := Apply(s, steps[i]);
      }
      assert steps[..|steps|] == steps;
      log, live, creators := s.log, s.live, s.creators;
    }

    /**
     The save loop: read, let others act, insert, and again on a unique violation, at most five times.
     It is a run of the protocol, and it fails only if at least five orders were committed meanwhile.
     */
    method SaveWithRetry(c: CreatorId, years: seq<nat>, others: seq<seq<Step>>)
      returns (saved: Option<nat>, ghost script: seq<Step>)
      requires Inv(Snapshot()) && c !in creators
      requires |years| == 5 && |others| == 5
      requires forall k, i :: 0 <= k < |others| && 0 <= i < |others[k]| ==> !Concerns(others[k][i], c)
      modifies this
      ensures Snapshot() == Exec(old(Snapshot()), script) && Inv(Snapshot())
      ensures saved.Some? ==> c in creators && creators[c].pc == Stored(saved.value)
      ensures saved.None? ==> |log| >= |old(log)| + 5
    {
      hide Apply, Exec, Inv, Format, MaxSequence, FindLive;
      ghost var s0 := Snapshot();
      Start(c);
      script := [Begin(c)];
      ExecOne(s0, Begin(c));
      StepKeeps(s0, Begin(c));
      for attempt := 0 to MAX_ATTEMPTS
        invariant Snapshot() == Exec(s0, script) && Inv(Snapshot())
        invariant c in creators && creators[c].pc == if attempt < MAX_ATTEMPTS then Reading else GaveUp
        invariant creators[c].startedAt == |s0.log| && |creators[c].charges| == attempt
      {
        ghost var before := Snapshot();
        Propose(c, years[attempt]);
        ExecOne(before, Read(c, years[attempt]));
        StepKeeps(before, Read(c, years[attempt]));
        ExecConcat(s0, script, [Read(c, years[attempt])]);
        script := script + [Read(c, years[attempt])];

        ghost var read := Snapshot();
        Interfere(others[attempt]);
        RunKeeps(read, others[attempt]);
        UnconcernedRun(read, others[attempt], c);
        ExecConcat(s0, script, others[attempt]);
        script := script + others[attempt];

        ghost var waiting := Snapshot();
        var stored := Insert(c);
        ExecOne(waiting, TryInsert(c));
        StepKeeps(waiting, TryInsert(c));
        ExecConcat(s0, script, [TryInsert(c)]);
        script := script + [TryInsert(c)];
        if stored.Some? {
          return stored, script;
        }
      }
      FiveCharges(Snapshot(), c);
      saved := None;
    }

    method Start(c: CreatorId)
      requires c !in creators
      modifies `creators
      ensures Snapshot() == Apply(old(Snapshot()), Begin(c))
      ensures c in creators && creators[c] == Creator(Reading, |log|, |log|, [])
    {
      creators := creators[c := Creator(Reading, |log|, |log|, [])];
    }

    method Propose(c: CreatorId, year: nat)
      requires c in creators && creators[c].pc == Reading
      modifies `creators
      ensures Snapshot() == Apply(old(Snapshot()), Read(c, year))
      ensures c in creators && creators[c].pc.Proposed?
      ensures creators[c].startedAt == old(creators)[c].startedAt && creators[c].charges == old(creators)[c].charges
      ensures creators[c].readAt == |log| && log == old(log) && live == old(live)
    {
      hide Format, MaxSequence;
      var number := GenerateOrderNumber(year);
      creators := creators[c := creators[c].(pc := Proposed(number), readAt := |log|)];
    }

    /** The insert: refused with a unique violation when a live order has the number. */
    method Insert(c: CreatorId) returns (stored: Option<nat>)
      requires c in creators && creators[c].pc.Proposed?
      modifies this
      ensures Snapshot() == Apply(old(Snapshot()), TryInsert(c))
      ensures c in creators && creators[c].startedAt == old(creators)[c].startedAt
      ensures stored.Some? ==> creators[c].pc == Stored(stored.value)
      ensures stored.None? <==> exists i :: 0 <= i < |old(log)| && i in old(live) && old(log)[i] == old(creators)[c].pc.number
      ensures stored.None? ==> log == old(log) && live == old(live)
      ensures stored.Some? ==> stored.value == |old(log)| && log == old(log) + [old(creators)[c].pc.number]
                               && live == old(live) + {|old(log)|}
      ensures stored.None? ==> |creators[c].charges| == |old(creators)[c].charges| + 1
                               && creators[c].pc == if |creators[c].charges| >= 5 then GaveUp else Reading
    {
      hide FindLive;
      var me := creators[c];
      var taken := FindLive(log, live, me.pc.number, |log|);
      if taken.None? {
        stored := Some(|log|);
        live := live + {|log|};
        creators := creators[c := me.(pc := Stored(|log|))];
        log := log + [me.pc.number];
      } else {
        var charges := me.charges + [taken.value];
        creators := creators[c := me.(pc := if |charges| >= MAX_ATTEMPTS then GaveUp else Reading, charges := charges)];
        stored := None;
      }
    }
  }

  lemma FiveCharges(s: State, c: CreatorId)
    requires Inv(s) && c in s.creators && s.creators[c].pc == GaveUp
    ensures |s.log| >= s.creators[c].startedAt + 5
  {
    assert CreatorOk(s, s.creators[c]);
    IncreasingSpread(s.creators[c].charges, s.creators[c].startedAt, |s.log|);
  }

  predicate Concerns(step: Step, c: CreatorId) {
    !step.Delete? && step.c == c
  }

  lemma {:induction false} UnconcernedRun(s: State, steps: seq<Step>, c: CreatorId)
    requires c in s.creators && forall i :: 0 <= i < |steps| ==> !Concerns(steps[i], c)
    ensures c in Exec(s, steps).creators && Exec(s, steps).creators[c] == s.creators[c]
  {
    if steps != [] {
      UnconcernedRun(s, steps[..|steps| - 1], c);
    }
  }
}
