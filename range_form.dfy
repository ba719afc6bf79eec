/** The numeric MC-range form: the checks made on submission, the list of
    zero-padded MC numbers it sends, and the live total/time estimate shown
    while the user types. Start and end are the already parsed numbers. */
module RangeForm {
  import opened Common
  import opened Decimal

  /** The largest range the form's messages allow. */
  const MaxRange: nat := 100000

  /** Width every MC number is zero-padded to. */
  const McWidth: nat := 6

  /** Seconds of processing estimated per carrier. */
  const SecondsPerCarrier: nat := 2

  const EndNotAfterStart := "End MC number must be greater than Start MC number"
  const RangeTooLarge := "Maximum range is 100,000 MC numbers"

  /** The checks made when the range form is submitted: `None` lets the
      submission through, `Some(message)` is the error shown instead. */
  function ValidateRange(start: nat, end: nat): (r: Option<string>)
    ensures r == None <==> start < end && end - start <= MaxRange
    ensures end <= start ==> r == Some(EndNotAfterStart)
    ensures start < end && end - start > MaxRange ==> r == Some(RangeTooLarge)
  {
    if end <= start then Some(EndNotAfterStart)
    else if end - start > MaxRange then Some(RangeTooLarge)
    else None
  }

  /** One sent MC number: `n.toString().padStart(6, '0')`. */
  function McString(n: nat): (s: string)
  {
    PadStart(ToDecimal(n), McWidth)
  }

  /** Every MC string is a digit string of at least six characters; exactly
      six below one million, and the plain decimal text from 100000 on. */
  lemma McStringShape(n: nat)
    ensures AllDigits(McString(n)) && |McString(n)| >= McWidth
    ensures n < 1000000 ==> |McString(n)| == McWidth
    ensures n >= 100000 ==> McString(n) == ToDecimal(n)
  {
    DecimalLength(n);
  }

  /** Reading an MC string as a decimal gives back its number. */
  lemma McStringRoundTrip(n: nat)
    ensures AllDigits(McString(n)) && ParseDecimal(McString(n)) == n
  {
    ParsePadded(n, McWidth);
  }

  /** Different numbers give different MC strings. */
  lemma McStringInjective(m: nat, n: nat)
    requires McString(m) == McString(n)
    ensures m == n
  {
    McStringRoundTrip(m);
    McStringRoundTrip(n);
  }

  /** The generation loop `for (i = start; i <= end; i++) push(...)`: one
      entry per number of the inclusive range, entry k for `start + k`, so
      the numbers they denote ascend. */
  method GenerateMcNumbers(start: nat, end: nat) returns (mcs: seq<string>)
    ensures |mcs| == if start <= end then end - start + 1 else 0
    ensures forall k :: 0 <= k < |mcs| ==> mcs[k] == McString(start + k)
    ensures forall k :: 0 <= k < |mcs| ==> AllDigits(mcs[k]) && ParseDecimal(mcs[k]) == start + k
  {
    mcs := [];
    var i := start;
    while i <= end
      invariant start <= i
      invariant start <= end ==> i <= end + 1
      invariant end < start ==> i == start
      invariant |mcs| == i - start
      invariant forall k :: 0 <= k < |mcs| ==> mcs[k] == McString(start + k)
      decreases end + 1 - i
    {
      mcs := mcs + [McString(i)];
      i := i + 1;
    }
    forall k | 0 <= k < |mcs|
      ensures AllDigits(mcs[k]) && ParseDecimal(mcs[k]) == start + k
    {
      McStringRoundTrip(start + k);
    }
  }

  /** The submit handler up to the request it sends: the validation errors,
      or the list of MC numbers that goes into the request body. */
  method SubmitRange(start: nat, end: nat) returns (r: Result<seq<string>>)
    ensures r.Err? <==> ValidateRange(start, end).Some?
    ensures r.Err? ==> r.message == ValidateRange(start, end).value
    ensures r.Ok? ==> 2 <= |r.value| == end - start + 1 <= MaxRange + 1
    ensures r.Ok? ==> forall k :: 0 <= k < |r.value| ==> r.value[k] == McString(start + k)
  {
    var invalid := ValidateRange(start, end);
    if invalid.Some? {
      return Err(invalid.value);
    }
    var mcs := GenerateMcNumbers(start, end);
    return Ok(mcs);
  }

  /** What the live range panel shows: the number of MC numbers in the range,
      the estimated minutes, and whether the submit button is enabled. */
  datatype RangeInfo = RangeInfo(total: nat, minutes: nat, submitEnabled: bool)

  /** `updateRangeInfo`: the panel and the submit button are updated only
      when both numbers are non-zero and the end lies after the start (`None`:
      whatever an earlier update left stays on screen); an update shows the
      total counting both ends, the total's seconds rounded up to whole
      minutes, and enables submit only up to `MaxRange` numbers. */
  function UpdateRangeInfo(start: nat, end: nat): (r: Option<RangeInfo>)
    ensures r.Some? <==> start != 0 && end != 0 && end > start
    ensures r.Some? ==> r.value.total == end - start + 1
    ensures r.Some? ==> (r.value.minutes - 1) * 60 < r.value.total * SecondsPerCarrier <= r.value.minutes * 60
    ensures r.Some? ==> (r.value.submitEnabled <==> r.value.total <= MaxRange)
  {
    if start != 0 && end != 0 && end > start then
      var total := end - start + 1;
      Some(RangeInfo(total, (total * SecondsPerCarrier + 59) / 60, total <= MaxRange))
    else
      None
  }

  /** The minutes estimate is the total divided by thirty, rounded up. */
  lemma MinutesIsTotalOverThirty(start: nat, end: nat)
    requires UpdateRangeInfo(start, end).Some?
    ensures var i := UpdateRangeInfo(start, end).value;
      (i.minutes - 1) * 30 < i.total <= i.minutes * 30
  {
  }

  /** The two limits disagree at one width: a range whose end lies exactly
      `MaxRange` after its start passes the submit check, yet the live check
      disables the submit button for it, since it holds `MaxRange + 1`
      numbers. */
  lemma LimitsDisagreeAtBoundary(start: nat)
    requires start > 0
    ensures ValidateRange(start, start + MaxRange) == None
    ensures UpdateRangeInfo(start, start + MaxRange).Some?
    ensures !UpdateRangeInfo(start, start + MaxRange).value.submitEnabled
  {
  }

  /** Everywhere else the two limits agree: for a range that updates the
      live panel, the update enables submit exactly when submission is
      accepted, unless the end lies exactly `MaxRange` after the start. */
  lemma LimitsAgreeElsewhere(start: nat, end: nat)
    requires start > 0 && end > start && end - start != MaxRange
    ensures UpdateRangeInfo(start, end).Some?
    ensures UpdateRangeInfo(start, end).value.submitEnabled <==> ValidateRange(start, end) == None
  {
  }
}
