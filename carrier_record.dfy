/** The carrier record the scraper builds from one loaded FMCSA page: the
    default record, the fields filled through label lookups with fallbacks,
    the clean-up of the values, and the check that something was found. The
    page lookup (`find_value_by_label`) is a parameter: a label's text, or
    `None` when no cell carries that label. */
module CarrierRecord {
  import opened Common
  import opened Text

  /** A record value as the Python dict holds it: `None`, a string, or one
      of the integer counts. */
  datatype Value = Null | Str(s: string) | Count(n: int)

  /** The carrier dict. Its keys are fixed: one field per key, in the
      order the dict lists them. */
  datatype Record = Record(
    mcNumber: Value,
    dotNumber: Value,
    companyName: Value,
    authorityStatus: Value,
    authorityType: Value,
    insuranceStatus: Value,
    insuranceExpiry: Value,
    safetyRating: Value,
    violations12mo: Value,
    accidents12mo: Value,
    authorityDate: Value,
    email: Value,
    phone: Value,
    state: Value)

  /** The keys, to speak of every value of a record at once. */
  datatype Field =
    | McNumber | DotNumber | CompanyName | AuthorityStatus | AuthorityType
    | InsuranceStatus | InsuranceExpiry | SafetyRating | Violations12mo
    | Accidents12mo | AuthorityDate | Email | Phone | State

  /** The dict key each field is stored under. */
  function Key(f: Field): string
  {
    match f
    case McNumber => "mc_number"
    case DotNumber => "dot_number"
    case CompanyName => "company_name"
    case AuthorityStatus => "authority_status"
    case AuthorityType => "authority_type"
    case InsuranceStatus => "insurance_status"
    case InsuranceExpiry => "insurance_expiry"
    case SafetyRating => "safety_rating"
    case Violations12mo => "violations_12mo"
    case Accidents12mo => "accidents_12mo"
    case AuthorityDate => "authority_date"
    case Email => "email"
    case Phone => "phone"
    case State => "state"
  }

  /** The fourteen keys are distinct strings, so the dict has one entry per
      field. */
  lemma KeyInjective(f: Field, g: Field)
    requires Key(f) == Key(g)
    ensures f == g
  {
  }

  /** `data[key]`. */
  function Get(d: Record, f: Field): Value
  {
    match f
    case McNumber => d.mcNumber
    case DotNumber => d.dotNumber
    case CompanyName => d.companyName
    case AuthorityStatus => d.authorityStatus
    case AuthorityType => d.authorityType
    case InsuranceStatus => d.insuranceStatus
    case InsuranceExpiry => d.insuranceExpiry
    case SafetyRating => d.safetyRating
    case Violations12mo => d.violations12mo
    case Accidents12mo => d.accidents12mo
    case AuthorityDate => d.authorityDate
    case Email => d.email
    case Phone => d.phone
    case State => d.state
  }

  const Sentinels: set<string> := {"", "None", "N/A"}

  /** The record before the page is read: the MC number given, zero
      violations and accidents, every other value `None`. */
  function InitialRecord(mcNumber: string): (r: Record)
    ensures r.mcNumber == Str(mcNumber)
    ensures r.violations12mo == Count(0) && r.accidents12mo == Count(0)
    ensures forall f :: f !in {McNumber, Violations12mo, Accidents12mo} ==> Get(r, f) == Null
  {
    Record(Str(mcNumber), Null, Null, Null, Null, Null, Null, Null, Count(0), Count(0), Null, Null, Null, Null)
  }

  /** Python `a or b or ...` over lookup results. */
  function FirstTruthy(candidates: seq<Option<string>>): (r: Option<string>)
    requires |candidates| >= 1
    decreases |candidates|
  {
    if |candidates| == 1 || Truthy(candidates[0]) then candidates[0]
    else FirstTruthy(candidates[1..])
  }

  /** The chain yields the first candidate that is a non-empty string, and
      when there is none, the last candidate. */
  lemma {:induction false} FirstTruthySpec(candidates: seq<Option<string>>)
    requires |candidates| >= 1
    ensures var r := FirstTruthy(candidates);
      && (Truthy(r) <==> exists i :: 0 <= i < |candidates| && Truthy(candidates[i]))
      && (Truthy(r) ==> exists i ::
            0 <= i < |candidates| && r == candidates[i] && (forall j :: 0 <= j < i ==> !Truthy(candidates[j])))
      && (!Truthy(r) ==> r == candidates[|candidates| - 1])
    decreases |candidates|
  {
    var r := FirstTruthy(candidates);
    if |candidates| > 1 && !Truthy(candidates[0]) {
      var rest := candidates[1..];
      FirstTruthySpec(rest);
      if Truthy(r) {
        var i :| 0 <= i < |rest| && r == rest[i] && (forall j :: 0 <= j < i ==> !Truthy(rest[j]));
        assert r == candidates[i + 1];
        assert forall j :: 0 <= j < i + 1 ==> !Truthy(candidates[j]) by {
          forall j | 0 <= j < i + 1 ensures !Truthy(candidates[j]) {
            if j > 0 {
              assert candidates[j] == rest[j - 1];
            }
          }
        }
      } else {
        forall i | 0 <= i < |candidates| ensures !Truthy(candidates[i]) {
          if i > 0 {
            assert candidates[i] == rest[i - 1];
          }
        }
      }
    }
  }

  /** `a or b`: `a` when it is a non-empty string, `b` otherwise. */
  lemma FirstOfTwo(a: Option<string>, b: Option<string>)
    ensures FirstTruthy([a, b]) == if Truthy(a) then a else b
  {
    assert [a, b][1..] == [b];
  }

  /** Each two-label chain takes the first label's text when that is
      non-empty and the second label's lookup otherwise. */
  lemma ChainFallbacks(lookup: string -> Option<string>)
    ensures CompanyNameChain(lookup) ==
      if Truthy(lookup("company name")) then lookup("company name") else lookup("legal name")
    ensures DotNumberChain(lookup) ==
      if Truthy(lookup("dot number")) then lookup("dot number") else lookup("usdot")
    ensures StateChain(lookup) ==
      if Truthy(lookup("state")) then lookup("state") else lookup("principal place")
    ensures SafetyRatingChain(lookup) ==
      if Truthy(lookup("rating")) then lookup("rating") else lookup("safety rating")
  {
    FirstOfTwo(lookup("company name"), lookup("legal name"));
    FirstOfTwo(lookup("dot number"), lookup("usdot"));
    FirstOfTwo(lookup("state"), lookup("principal place"));
    FirstOfTwo(lookup("rating"), lookup("safety rating"));
  }

  /** `a or b or c`: the first of the three that is a non-empty string, and
      `c` when neither `a` nor `b` is. */
  lemma FirstOfThree(a: Option<string>, b: Option<string>, c: Option<string>)
    ensures FirstTruthy([a, b, c]) == if Truthy(a) then a else if Truthy(b) then b else c
  {
    assert [a, b, c][1..] == [b, c];
    FirstOfTwo(b, c);
  }

  /** The insurance expiry chain takes the first of its three lookups that
      found text, and finds text exactly when one of them does. */
  lemma InsuranceChainTruthy(lookup: string -> Option<string>)
    ensures var a, b, c := lookup("insurance expiry"), lookup("policy expiration"), lookup("expiration date");
      && InsuranceExpiryChain(lookup) == (if Truthy(a) then a else if Truthy(b) then b else c)
      && (Truthy(InsuranceExpiryChain(lookup)) <==> Truthy(a) || Truthy(b) || Truthy(c))
  {
    FirstOfThree(lookup("insurance expiry"), lookup("policy expiration"), lookup("expiration date"));
  }

  function FromLookup(v: Option<string>): (x: Value)
  {
    match v
    case None => Null
    case Some(s) => Str(s)
  }

  /** One value after the first dict comprehension: strings stripped. */
  function StripValue(v: Value): (w: Value)
  {
    if v.Str? then Str(PyStrip(v.s)) else v
  }

  /** One value after the second dict comprehension: "", "None" and "N/A"
      become `None`; the counts and every other value are kept. */
  function DropSentinel(v: Value): (w: Value)
  {
    if v.Str? && v.s in Sentinels then Null else v
  }

  /** First dict comprehension: every string value stripped. */
  function StripStrings(d: Record): (e: Record)
    ensures forall f :: Get(e, f) == StripValue(Get(d, f))
  {
    Record(
      StripValue(d.mcNumber),
      StripValue(d.dotNumber),
      StripValue(d.companyName),
      StripValue(d.authorityStatus),
      StripValue(d.authorityType),
      StripValue(d.insuranceStatus),
      StripValue(d.insuranceExpiry),
      StripValue(d.safetyRating),
      StripValue(d.violations12mo),
      StripValue(d.accidents12mo),
      StripValue(d.authorityDate),
      StripValue(d.email),
      StripValue(d.phone),
      StripValue(d.state))
  }

  /** Second dict comprehension: the sentinels dropped. */
  function DropSentinels(d: Record): (e: Record)
    ensures forall f :: Get(e, f) == DropSentinel(Get(d, f))
  {
    Record(
      DropSentinel(d.mcNumber),
      DropSentinel(d.dotNumber),
      DropSentinel(d.companyName),
      DropSentinel(d.authorityStatus),
      DropSentinel(d.authorityType),
      DropSentinel(d.insuranceStatus),
      DropSentinel(d.insuranceExpiry),
      DropSentinel(d.safetyRating),
      DropSentinel(d.violations12mo),
      DropSentinel(d.accidents12mo),
      DropSentinel(d.authorityDate),
      DropSentinel(d.email),
      DropSentinel(d.phone),
      DropSentinel(d.state))
  }

  /** One value after both comprehensions. */
  function CleanValue(v: Value): (w: Value)
  {
    DropSentinel(StripValue(v))
  }

  /** The clean-up of the record: strip, then drop the sentinels. */
  function Cleanup(d: Record): (e: Record)
    ensures forall f :: Get(e, f) == CleanValue(Get(d, f))
  {
    DropSentinels(StripStrings(d))
  }

  /** A value the clean-up leaves as it is: no surrounding whitespace and not
      one of the sentinels. */
  predicate IsCleanValue(v: Value)
  {
    v.Str? ==> PyStrip(v.s) == v.s && v.s !in Sentinels
  }

  predicate IsClean(d: Record)
  {
    forall f :: IsCleanValue(Get(d, f))
  }

  /** After clean-up every string is stripped and none is "", "None" or
      "N/A"; `None` and the counts are unchanged. */
  lemma {:induction false} CleanValueSpec(v: Value)
    ensures IsCleanValue(CleanValue(v))
    ensures !v.Str? ==> CleanValue(v) == v
    ensures v.Str? ==> CleanValue(v) == (if PyStrip(v.s) in Sentinels then Null else Str(PyStrip(v.s)))
  {
    if v.Str? {
      StripIdempotent(v.s, PyWhitespace);
    }
  }

  lemma CleanupIsClean(d: Record)
    ensures IsClean(Cleanup(d))
  {
    forall f ensures IsCleanValue(Get(Cleanup(d), f)) {
      CleanValueSpec(Get(d, f));
    }
  }

  /** A clean value is left as it is. */
  lemma CleanValueFixed(v: Value)
    requires IsCleanValue(v)
    ensures CleanValue(v) == v
  {
  }

  /** Cleaning a value twice gives the value cleaned once. */
  lemma CleanValueIdempotent(v: Value)
    ensures CleanValue(CleanValue(v)) == CleanValue(v)
  {
    CleanValueSpec(v);
    CleanValueFixed(CleanValue(v));
  }

  /** Cleaning a record twice gives the record cleaned once. */
  lemma CleanupIdempotent(d: Record)
    ensures Cleanup(Cleanup(d)) == Cleanup(d)
  {
    CleanValueIdempotent(d.mcNumber);
    CleanValueIdempotent(d.dotNumber);
    CleanValueIdempotent(d.companyName);
    CleanValueIdempotent(d.authorityStatus);
    CleanValueIdempotent(d.authorityType);
    CleanValueIdempotent(d.insuranceStatus);
    CleanValueIdempotent(d.insuranceExpiry);
    CleanValueIdempotent(d.safetyRating);
    CleanValueIdempotent(d.violations12mo);
    CleanValueIdempotent(d.accidents12mo);
    CleanValueIdempotent(d.authorityDate);
    CleanValueIdempotent(d.email);
    CleanValueIdempotent(d.phone);
    CleanValueIdempotent(d.state);
  }

  /** Python truthiness of a record value. */
  predicate IsTruthy(v: Value)
  {
    match v
    case Null => false
    case Str(s) => s != ""
    case Count(n) => n != 0
  }

  /** On a cleaned string field, "not truthy" means exactly `None`. */
  lemma CleanTruthyIffPresent(v: Value)
    requires IsCleanValue(v) && !v.Count?
    ensures IsTruthy(v) <==> v != Null
  {
  }

  /** The label chains, in the order the lookups are tried. */
  function CompanyNameChain(lookup: string -> Option<string>): Option<string>
  {
    FirstTruthy([lookup("company name"), lookup("legal name")])
  }

  function DotNumberChain(lookup: string -> Option<string>): Option<string>
  {
    FirstTruthy([lookup("dot number"), lookup("usdot")])
  }

  function StateChain(lookup: string -> Option<string>): Option<string>
  {
    FirstTruthy([lookup("state"), lookup("principal place")])
  }

  function SafetyRatingChain(lookup: string -> Option<string>): Option<string>
  {
    FirstTruthy([lookup("rating"), lookup("safety rating")])
  }

  function InsuranceExpiryChain(lookup: string -> Option<string>): Option<string>
  {
    FirstTruthy([lookup("insurance expiry"), lookup("policy expiration"), lookup("expiration date")])
  }

  /** The record `_parse_page` has built when it reaches the clean-up: the
      default record with each field set from its lookup or fallback chain.
      The insurance expiry is only set when one of its lookups found
      non-empty text. */
  function FilledRecord(mcNumber: string, lookup: string -> Option<string>): Record
  {
    var insuranceDate := InsuranceExpiryChain(lookup);
    Record(
      Str(mcNumber),
      FromLookup(DotNumberChain(lookup)),
      FromLookup(CompanyNameChain(lookup)),
      FromLookup(lookup("operating status")),
      FromLookup(lookup("entity type")),
      FromLookup(lookup("insurance required")),
      if Truthy(insuranceDate) then FromLookup(insuranceDate) else Null,
      FromLookup(SafetyRatingChain(lookup)),
      Count(0), Count(0), Null,
      FromLookup(lookup("email")),
      FromLookup(lookup("phone")),
      FromLookup(StateChain(lookup)))
  }

  /** The filled record in terms of the lookups themselves: each fallback
      field is its first label's text when that is non-empty and the second
      label's lookup otherwise; the insurance expiry is `None` unless one of
      its three lookups found text, and then non-empty text; the MC number,
      the authority date and the counts keep their defaults. */
  lemma FilledRecordFields(mcNumber: string, lookup: string -> Option<string>)
    ensures var d := FilledRecord(mcNumber, lookup);
      && d.mcNumber == InitialRecord(mcNumber).mcNumber
      && d.authorityDate == Null
      && d.violations12mo == Count(0) && d.accidents12mo == Count(0)
      && d.companyName == FromLookup(
           if Truthy(lookup("company name")) then lookup("company name") else lookup("legal name"))
      && d.dotNumber == FromLookup(
           if Truthy(lookup("dot number")) then lookup("dot number") else lookup("usdot"))
      && d.state == FromLookup(
           if Truthy(lookup("state")) then lookup("state") else lookup("principal place"))
      && d.safetyRating == FromLookup(
           if Truthy(lookup("rating")) then lookup("rating") else lookup("safety rating"))
      && d.authorityType == FromLookup(lookup("entity type"))
      && d.authorityStatus == FromLookup(lookup("operating status"))
      && d.phone == FromLookup(lookup("phone"))
      && d.email == FromLookup(lookup("email"))
      && d.insuranceStatus == FromLookup(lookup("insurance required"))
      && (d.insuranceExpiry != Null <==>
           Truthy(lookup("insurance expiry")) || Truthy(lookup("policy expiration")) || Truthy(lookup("expiration date")))
      && (d.insuranceExpiry != Null ==> d.insuranceExpiry.Str? && d.insuranceExpiry.s != "")
      && (d.insuranceExpiry != Null ==> d.insuranceExpiry == FromLookup(
           if Truthy(lookup("insurance expiry")) then lookup("insurance expiry")
           else if Truthy(lookup("policy expiration")) then lookup("policy expiration")
           else lookup("expiration date")))
  {
    ChainFallbacks(lookup);
    InsuranceChainTruthy(lookup);
  }

  /** The filling half of `_parse_page`: starting from the default record,
      the fields are assigned one after another. */
  method FillRecord(mcNumber: string, lookup: string -> Option<string>) returns (data: Record)
    ensures data == FilledRecord(mcNumber, lookup)
  {
    data := InitialRecord(mcNumber);
    data := data.(companyName := FromLookup(CompanyNameChain(lookup)));
    data := data.(dotNumber := FromLookup(DotNumberChain(lookup)));
    data := data.(authorityType := FromLookup(lookup("entity type")));
    data := data.(authorityStatus := FromLookup(lookup("operating status")));
    data := data.(phone := FromLookup(lookup("phone")));
    data := data.(email := FromLookup(lookup("email")));
    data := data.(state := FromLookup(StateChain(lookup)));
    data := data.(safetyRating := FromLookup(SafetyRatingChain(lookup)));
    data := data.(insuranceStatus := FromLookup(lookup("insurance required")));
    var insuranceDate := InsuranceExpiryChain(lookup);
    if Truthy(insuranceDate) {
      data := data.(insuranceExpiry := FromLookup(insuranceDate));
    }
  }

  /** `_parse_page` once the page is loaded: fill the record, clean it, and
      give it up when neither a company name nor a DOT number survived the
      clean-up; otherwise return the cleaned record, in which every value is
      stripped and none is a sentinel. */
  method ParsePage(mcNumber: string, lookup: string -> Option<string>) returns (result: Option<Record>)
    ensures var cleaned := Cleanup(FilledRecord(mcNumber, lookup));
      && (result.None? <==> cleaned.companyName == Null && cleaned.dotNumber == Null)
      && (result.Some? ==> result.value == cleaned)
      && (result.Some? ==> IsClean(result.value))
      && (result.Some? ==> IsTruthy(result.value.companyName) || IsTruthy(result.value.dotNumber))
  {
    var filled := FillRecord(mcNumber, lookup);
    var data := Cleanup(filled);
    CleanupIsClean(filled);
    assert IsCleanValue(Get(data, CompanyName)) && IsCleanValue(Get(data, DotNumber));
    CleanTruthyIffPresent(data.companyName);
    CleanTruthyIffPresent(data.dotNumber);
    if !IsTruthy(data.companyName) && !IsTruthy(data.dotNumber) {
      return None;
    }
    return Some(data);
  }
}
