/** The policy checker: it turns the sections of a checker configuration
    into checks, refusing the whole configuration on the first bad section,
    and runs the checks, adding up their failures.

    Reading and parsing the configuration file is not part of this model:
    the parsed sections arrive as a parameter (`None` when the file could
    not be opened or parsed). The registry of check types maps each type
    name to a factory standing for the check class's constructor, and the
    outcome of running a check is the parameter `outcome`. */
module Checker {
  import opened Wrappers

  /** The option naming a section's check type, and the configuration's
      top-level section, which is not a check. */
  const CheckTypeKey := "check_type"
  const DefaultSection := "DEFAULT"

  /** A configuration section: its name and its options. Sections come
      in file order; the options are configparser's view of the section, which also holds
      the DEFAULT section's options that the section does not override. */
  type Options = map<string, string>
  type Section = (string, Options)

  /** What a check type's constructor does with a section: builds a check,
      raises KeyError, or raises something else. */
  datatype Construction<K> = Built(check: K) | KeyErrorRaised | OtherRaised(reason: string)

  type Factory<K> = (string, Options) -> Construction<K>

  /** Why a configuration is refused. */
  datatype ConfigError =
    | Unparsable                                            // InvalidCheckerConfig
    | MissingCheckType(section: string)                     // InvalidCheckerModule
    | UnknownCheckType(section: string, checkType: string)  // InvalidCheckerModule
    | CheckSetupFailed(section: string, reason: string)     // the constructor's own error
    | NoChecks                                              // InvalidCheckerConfig

  predicate IsInvalidCheckerModule(e: ConfigError)
  {
    e.MissingCheckType? || e.UnknownCheckType?
  }

  predicate IsInvalidCheckerConfig(e: ConfigError)
  {
    e.Unparsable? || e.NoChecks?
  }

  /** The check one non-DEFAULT section describes. The KeyError handler
      wraps the constructor call too, so a KeyError from inside a registered
      constructor is reported as an unknown check type. */
  function SectionCheck<K>(registry: map<string, Factory<K>>, section: Section): Result<K, ConfigError>
  {
    var (name, options) := section;
    if CheckTypeKey !in options then Err(MissingCheckType(name))
    else
      var checkType := options[CheckTypeKey];
      if checkType !in registry then Err(UnknownCheckType(name, checkType))
      else
        match registry[checkType](name, options)
        case Built(check) => Ok(check)
        case KeyErrorRaised => Err(UnknownCheckType(name, checkType))
        case OtherRaised(reason) => Err(CheckSetupFailed(name, reason))
  }

  /** What one section contributes: nothing for DEFAULT, else its check
      or its error. */
  function SectionChecks<K>(registry: map<string, Factory<K>>, section: Section): Result<seq<K>, ConfigError>
  {
    if section.0 == DefaultSection then Ok([])
    else
      match SectionCheck(registry, section)
      case Err(e) => Err(e)
      case Ok(check) => Ok([check])
  }

  /** The first error of two steps, else both steps' checks in order. */
  function Then<K>(first: Result<seq<K>, ConfigError>, second: Result<seq<K>, ConfigError>): Result<seq<K>, ConfigError>
  {
    if first.Err? then first
    else if second.Err? then second
    else Ok(first.value + second.value)
  }

  /** The checks of the sections in order, skipping DEFAULT, or the error of
      the first section that fails. */
  function Collect<K>(registry: map<string, Factory<K>>, sections: seq<Section>): Result<seq<K>, ConfigError>
  {
    if sections == [] then Ok([])
    else Then(SectionChecks(registry, sections[0]), Collect(registry, sections[1..]))
  }

  /** The outcome of the validation loop and the emptiness test after it. */
  function Validate<K>(registry: map<string, Factory<K>>, sections: seq<Section>): Result<seq<K>, ConfigError>
  {
    match Collect(registry, sections)
    case Err(e) => Err(e)
    case Ok(checks) => if |checks| == 0 then Err(NoChecks) else Ok(checks)
  }

  /** The sections that describe checks. */
  function NonDefault(sections: seq<Section>): (r: seq<Section>)
    ensures forall s :: s in r ==> s in sections && s.0 != DefaultSection
  {
    if sections == [] then []
    else (if sections[0].0 == DefaultSection then [] else [sections[0]]) + NonDefault(sections[1..])
  }

  /** Sequencing two steps is associative. */
  lemma ThenAssociative<K>(x: Result<seq<K>, ConfigError>, y: Result<seq<K>, ConfigError>,
                           z: Result<seq<K>, ConfigError>)
    ensures Then(x, Then(y, z)) == Then(Then(x, y), z)
  {
    if x.Ok? && y.Ok? && z.Ok? {
      assert x.value + (y.value + z.value) == (x.value + y.value) + z.value;
    }
  }

  /** Collecting over a concatenation: the first part's error, else the
      second part's error, else both parts' checks in order. */
  lemma {:induction false} CollectAppend<K>(registry: map<string, Factory<K>>, a: seq<Section>, b: seq<Section>)
    ensures Collect(registry, a + b) == Then(Collect(registry, a), Collect(registry, b))
  {
    if a == [] {
      assert a + b == b;
      var c := Collect(registry, b);
      assert c.Ok? ==> [] + c.value == c.value;
    } else {
      assert (a + b)[0] == a[0];
      assert (a + b)[1..] == a[1..] + b;
      CollectAppend(registry, a[1..], b);
      ThenAssociative(SectionChecks(registry, a[0]), Collect(registry, a[1..]), Collect(registry, b));
    }
  }

  lemma CollectSingle<K>(registry: map<string, Factory<K>>, section: Section)
    ensures Collect(registry, [section]) == SectionChecks(registry, section)
  {
    assert [section][1..] == [];
    var c := SectionChecks(registry, section);
    assert c.Ok? ==> c.value + [] == c.value;
  }

  /** No section of `sections` is DEFAULT. */
  predicate NoDefault(sections: seq<Section>)
  {
    forall i :: 0 <= i < |sections| ==> sections[i].0 != DefaultSection
  }

  /** The DEFAULT section never produces a check, wherever it stands:
      validating the configuration is validating its other sections. */
  lemma {:induction false} DefaultIgnored<K>(registry: map<string, Factory<K>>, sections: seq<Section>)
    ensures NoDefault(NonDefault(sections))
    ensures Collect(registry, sections) == Collect(registry, NonDefault(sections))
  {
    if sections != [] {
      DefaultIgnored(registry, sections[1..]);
      var rest := NonDefault(sections[1..]);
      if sections[0].0 == DefaultSection {
        assert NonDefault(sections) == rest;
        var c := Collect(registry, sections[1..]);
        assert c.Ok? ==> [] + c.value == c.value;
      } else {
        var nd := NonDefault(sections);
        assert nd == [sections[0]] + rest;
        assert nd[0] == sections[0] && nd[1..] == rest;
      }
    }
  }

  /** Over sections none of which is DEFAULT: collecting succeeds exactly
      when every section builds a check, and then yields one check per
      section, built from it, in order. */
  lemma {:induction false} CollectNoDefault<K>(registry: map<string, Factory<K>>, ns: seq<Section>)
    requires NoDefault(ns)
    ensures Collect(registry, ns).Ok? <==> forall i :: 0 <= i < |ns| ==> SectionCheck(registry, ns[i]).Ok?
    ensures Collect(registry, ns).Ok? ==>
              |Collect(registry, ns).value| == |ns|
              && forall i :: 0 <= i < |ns| ==> SectionCheck(registry, ns[i]) == Ok(Collect(registry, ns).value[i])
  {
    if ns != [] {
      CollectNoDefault(registry, ns[1..]);
      assert forall i :: 0 < i < |ns| ==> ns[i] == ns[1..][i - 1];
    }
  }

  /** Over sections none of which is DEFAULT: the error of the first
      section that does not build a check is the error of the whole. */
  lemma {:induction false} CollectFirstError<K>(registry: map<string, Factory<K>>, ns: seq<Section>, k: nat)
    requires NoDefault(ns) && k < |ns|
    requires forall i :: 0 <= i < k ==> SectionCheck(registry, ns[i]).Ok?
    requires SectionCheck(registry, ns[k]).Err?
    ensures Collect(registry, ns) == Err(SectionCheck(registry, ns[k]).error)
  {
    if k > 0 {
      assert forall i :: 0 <= i < k - 1 ==> ns[1..][i] == ns[i + 1];
      assert ns[1..][k - 1] == ns[k];
      CollectFirstError(registry, ns[1..], k - 1);
    }
  }

  /** On success there is one check per non-DEFAULT section, built from
      that section, in section order, and there is at least one. */
  lemma ValidateOk<K>(registry: map<string, Factory<K>>, sections: seq<Section>)
    requires Validate(registry, sections).Ok?
    ensures var checks := Validate(registry, sections).value;
            && |checks| == |NonDefault(sections)| > 0
            && forall i :: 0 <= i < |checks| ==>
                 SectionCheck(registry, NonDefault(sections)[i]) == Ok(checks[i])
  {
    DefaultIgnored(registry, sections);
    CollectNoDefault(registry, NonDefault(sections));
  }

  /** Conversely, when every non-DEFAULT section builds a check and there is
      at least one such section, validation succeeds. */
  lemma ValidateSucceeds<K>(registry: map<string, Factory<K>>, sections: seq<Section>)
    requires |NonDefault(sections)| > 0
    requires forall i :: 0 <= i < |NonDefault(sections)| ==> SectionCheck(registry, NonDefault(sections)[i]).Ok?
    ensures Validate(registry, sections).Ok?
  {
    DefaultIgnored(registry, sections);
    CollectNoDefault(registry, NonDefault(sections));
  }

  /** Validation fails with the error of the first non-DEFAULT section that
      does not build a check. */
  lemma ValidateFirstError<K>(registry: map<string, Factory<K>>, sections: seq<Section>, k: nat)
    requires k < |NonDefault(sections)|
    requires forall i :: 0 <= i < k ==> SectionCheck(registry, NonDefault(sections)[i]).Ok?
    requires SectionCheck(registry, NonDefault(sections)[k]).Err?
    ensures Validate(registry, sections) == Err(SectionCheck(registry, NonDefault(sections)[k]).error)
  {
    DefaultIgnored(registry, sections);
    CollectFirstError(registry, NonDefault(sections), k);
  }

  /** A section without the check type key, when every earlier section
      builds a check, makes validation fail with InvalidCheckerModule. */
  lemma MissingKeyRefused<K>(registry: map<string, Factory<K>>, sections: seq<Section>, k: nat)
    requires k < |NonDefault(sections)| && CheckTypeKey !in NonDefault(sections)[k].1
    requires forall i :: 0 <= i < k ==> SectionCheck(registry, NonDefault(sections)[i]).Ok?
    ensures Validate(registry, sections) == Err(MissingCheckType(NonDefault(sections)[k].0))
    ensures IsInvalidCheckerModule(Validate(registry, sections).error)
  {
    ValidateFirstError(registry, sections, k);
  }

  /** A section whose check type is not registered, when every earlier
      section builds a check, makes validation fail with InvalidCheckerModule. */
  lemma UnknownTypeRefused<K>(registry: map<string, Factory<K>>, sections: seq<Section>, k: nat)
    requires k < |NonDefault(sections)|
    requires CheckTypeKey in NonDefault(sections)[k].1
    requires NonDefault(sections)[k].1[CheckTypeKey] !in registry
    requires forall i :: 0 <= i < k ==> SectionCheck(registry, NonDefault(sections)[i]).Ok?
    ensures Validate(registry, sections)
            == Err(UnknownCheckType(NonDefault(sections)[k].0, NonDefault(sections)[k].1[CheckTypeKey]))
    ensures IsInvalidCheckerModule(Validate(registry, sections).error)
  {
    ValidateFirstError(registry, sections, k);
  }

  /** A registered check type whose constructor raises KeyError is
      reported as an unknown check type, because the KeyError handler
      also wraps the constructor call. */
  lemma ConstructorKeyErrorRefused<K>(registry: map<string, Factory<K>>, sections: seq<Section>, k: nat)
    requires k < |NonDefault(sections)|
    requires CheckTypeKey in NonDefault(sections)[k].1
    requires NonDefault(sections)[k].1[CheckTypeKey] in registry
    requires registry[NonDefault(sections)[k].1[CheckTypeKey]](NonDefault(sections)[k].0, NonDefault(sections)[k].1).KeyErrorRaised?
    requires forall i :: 0 <= i < k ==> SectionCheck(registry, NonDefault(sections)[i]).Ok?
    ensures Validate(registry, sections)
            == Err(UnknownCheckType(NonDefault(sections)[k].0, NonDefault(sections)[k].1[CheckTypeKey]))
    ensures IsInvalidCheckerModule(Validate(registry, sections).error)
  {
    ValidateFirstError(registry, sections, k);
  }

  /** A configuration with no section but DEFAULT is refused with
      InvalidCheckerConfig. */
  lemma {:induction false} NoChecksRefused<K>(registry: map<string, Factory<K>>, sections: seq<Section>)
    requires NonDefault(sections) == []
    ensures Validate(registry, sections) == Err(NoChecks)
    ensures IsInvalidCheckerConfig(Validate(registry, sections).error)
  {
    DefaultIgnored(registry, sections);
  }

  /** A section that fails, after sections that all succeeded, decides
      the result of the whole loop. */
  lemma CollectStopsAtError<K>(registry: map<string, Factory<K>>, sections: seq<Section>, i: nat, checks: seq<K>)
    requires i < |sections| && Collect(registry, sections[..i]) == Ok(checks)
    requires SectionChecks(registry, sections[i]).Err?
    ensures Collect(registry, sections) == SectionChecks(registry, sections[i])
  {
    assert sections[..i + 1] == sections[..i] + [sections[i]];
    CollectAppend(registry, sections[..i], [sections[i]]);
    CollectSingle(registry, sections[i]);
    CollectAppend(registry, sections[..i + 1], sections[i + 1..]);
    assert sections[..i + 1] + sections[i + 1..] == sections;
  }

  /** A section that succeeds extends the prefix's checks by its own. */
  lemma CollectExtends<K>(registry: map<string, Factory<K>>, sections: seq<Section>, i: nat, checks: seq<K>)
    requires i < |sections| && Collect(registry, sections[..i]) == Ok(checks)
    requires SectionChecks(registry, sections[i]).Ok?
    ensures Collect(registry, sections[..i + 1]) == Ok(checks + SectionChecks(registry, sections[i]).value)
  {
    assert sections[..i + 1] == sections[..i] + [sections[i]];
    CollectAppend(registry, sections[..i], [sections[i]]);
    CollectSingle(registry, sections[i]);
  }

  /** The validation loop of the `config` setter: it walks the sections in
      order, skips DEFAULT, and stops at the first section that fails. */
  method ValidateSections<K>(registry: map<string, Factory<K>>, sections: seq<Section>)
    returns (r: Result<seq<K>, ConfigError>)
    ensures r == Validate(registry, sections)
  {
    var checks := [];
    for i := 0 to |sections|
      invariant Collect(registry, sections[..i]) == Ok(checks)
    {
      var (checkname, checkconfig) := sections[i];
      if checkname == DefaultSection {
        CollectExtends(registry, sections, i, checks);
        assert checks + [] == checks;
        continue;
      }
      if CheckTypeKey !in checkconfig {
        CollectStopsAtError(registry, sections, i, checks);
        return Err(MissingCheckType(checkname));
      }
      var checkType := checkconfig[CheckTypeKey];
      if checkType !in registry {
        CollectStopsAtError(registry, sections, i, checks);
        return Err(UnknownCheckType(checkname, checkType));
      }
      var newcheck := registry[checkType](checkname, checkconfig);
      if newcheck.KeyErrorRaised? {
        CollectStopsAtError(registry, sections, i, checks);
        return Err(UnknownCheckType(checkname, checkType));
      } else if newcheck.OtherRaised? {
        CollectStopsAtError(registry, sections, i, checks);
        return Err(CheckSetupFailed(checkname, newcheck.reason));
      }
      CollectExtends(registry, sections, i, checks);
      checks := checks + [newcheck.check];
    }
    assert sections[..|sections|] == sections;
    if |checks| == 0 {
      return Err(NoChecks);
    }
    return Ok(checks);
  }

  /** How one check ended when the checker ran it. */
  datatype CheckOutcome = Disabled | Ran(failures: nat) | Raised

  /** The verdict line printed for a check. */
  datatype Verdict = Passed | Failed

  /** What one check adds to the total: nothing when disabled, the number
      of failures it returned when it ran, and exactly one when it raised. */
  function CheckFailures(o: CheckOutcome): nat
  {
    match o
    case Disabled => 0
    case Ran(failures) => failures
    case Raised => 1
  }

  /** A disabled check gets no verdict line (the loop continues before
      printing it); any other check is FAILED exactly when it counted
      failures. */
  function VerdictOf(o: CheckOutcome): (v: Option<Verdict>)
    ensures v.None? <==> o.Disabled?
    ensures v == Some(Failed) <==> CheckFailures(o) > 0
  {
    if o.Disabled? then None
    else if CheckFailures(o) > 0 then Some(Failed) else Some(Passed)
  }

  /** The total the checker reports for a sequence of checks. */
  function Tally<K>(checks: seq<K>, outcome: K -> CheckOutcome): nat
  {
    if checks == [] then 0
    else CheckFailures(outcome(checks[0])) + Tally(checks[1..], outcome)
  }

  lemma {:induction false} TallyAppend<K>(a: seq<K>, b: seq<K>, outcome: K -> CheckOutcome)
    ensures Tally(a + b, outcome) == Tally(a, outcome) + Tally(b, outcome)
  {
    if a == [] {
      assert a + b == b;
    } else {
      assert (a + b)[0] == a[0];
      assert (a + b)[1..] == a[1..] + b;
      TallyAppend(a[1..], b, outcome);
    }
  }

  /** The total is zero exactly when no check was reported FAILED, and it
      is at least what any single check counted. */
  lemma {:induction false} TallyZeroIffNoneFailed<K>(checks: seq<K>, outcome: K -> CheckOutcome)
    ensures Tally(checks, outcome) == 0 <==>
              forall i :: 0 <= i < |checks| ==> VerdictOf(outcome(checks[i])) != Some(Failed)
    ensures forall i :: 0 <= i < |checks| ==> CheckFailures(outcome(checks[i])) <= Tally(checks, outcome)
  {
    if checks != [] {
      TallyZeroIffNoneFailed(checks[1..], outcome);
      forall i | 0 < i < |checks|
        ensures CheckFailures(outcome(checks[i])) <= Tally(checks, outcome)
      {
        assert checks[i] == checks[1..][i - 1];
      }
      if Tally(checks, outcome) != 0 && CheckFailures(outcome(checks[0])) == 0 {
        var j :| 0 <= j < |checks[1..]| && VerdictOf(outcome(checks[1..][j])) == Some(Failed);
        assert checks[j + 1] == checks[1..][j];
      }
    }
  }

  /** The checker object: the check registry it was built with, and the
      configuration path, parsed configuration and checks of the last
      configuration it accepted. */
  class PolicyChecker<K> {
    const registry: map<string, Factory<K>>
    var configPath: Option<string>
    var config: seq<Section>
    var checks: seq<K>

    /** A checker built successfully always has a configuration and at
        least one check. The class constructor alone does not establish
        this: it holds once `SetConfig` accepts a configuration, which is
        how `NewPolicyChecker` completes the construction. */
    ghost predicate Valid()
      reads this
    {
      configPath.Some? && |checks| > 0
    }

    /** The constructor up to the `config` assignment. */
    constructor (registry: map<string, Factory<K>>)
      requires |registry| > 0
      ensures this.registry == registry
      ensures configPath == None && config == [] && checks == []
    {
      this.registry := registry;
      configPath := None;
      config := [];
      checks := [];
    }

    /** The `config` setter. An unparsable file or an invalid configuration
        is refused and leaves the path, the configuration and the checks as
        they were; otherwise all three are replaced together. */
    method SetConfig(path: string, parsed: Option<seq<Section>>) returns (outcome: Outcome<ConfigError>)
      modifies this`configPath, this`config, this`checks
      ensures parsed.None? ==>
                outcome == Fail(Unparsable)
                && configPath == old(configPath) && config == old(config) && checks == old(checks)
      ensures parsed.Some? && Validate(registry, parsed.value).Err? ==>
                outcome == Fail(Validate(registry, parsed.value).error)
                && configPath == old(configPath) && config == old(config) && checks == old(checks)
      ensures parsed.Some? && Validate(registry, parsed.value).Ok? ==>
                outcome == Pass && configPath == Some(path) && config == parsed.value
                && checks == Validate(registry, parsed.value).value
      ensures outcome.Pass? ==> Valid()
    {
      if parsed.None? {
        return Fail(Unparsable);
      }
      var validated := ValidateSections(registry, parsed.value);
      if validated.Err? {
        return Fail(validated.error);
      }
      configPath := Some(path);
      checks := validated.value;
      config := parsed.value;
      outcome := Pass;
    }

    /** `run`: the total number of failures over all checks, and the
        verdict printed for each check. */
    method Run(outcome: K -> CheckOutcome) returns (failures: nat, verdicts: seq<Option<Verdict>>)
      requires Valid()
      ensures failures == Tally(checks, outcome)
      ensures failures == 0 <==> forall i :: 0 <= i < |verdicts| ==> verdicts[i] != Some(Failed)
      ensures |verdicts| == |checks|
      ensures forall i :: 0 <= i < |checks| ==> verdicts[i] == VerdictOf(outcome(checks[i]))
    {
      failures := 0;
      verdicts := [];
      for i := 0 to |checks|
        invariant failures == Tally(checks[..i], outcome)
        invariant |verdicts| == i
        invariant forall j :: 0 <= j < i ==> verdicts[j] == VerdictOf(outcome(checks[j]))
      {
        var check := checks[i];
        assert checks[..i + 1] == checks[..i] + [check];
        TallyAppend(checks[..i], [check], outcome);
        var checkFailures := 0;
        var result := outcome(check);
        if result.Disabled? {
          verdicts := verdicts + [None];
          continue;
        } else if result.Ran? {
          checkFailures := checkFailures + result.failures;
        } else {
          checkFailures := checkFailures + 1;
        }
        verdicts := verdicts + [if checkFailures > 0 then Some(Failed) else Some(Passed)];
        failures := failures + checkFailures;
      }
      assert checks[..|checks|] == checks;
      TallyZeroIffNoneFailed(checks, outcome);
    }
  }

  /** The whole constructor: a checker exists only once its first
      configuration has been accepted. */
  method NewPolicyChecker<K>(registry: map<string, Factory<K>>, path: string, parsed: Option<seq<Section>>)
    returns (r: Result<PolicyChecker<K>, ConfigError>)
    requires |registry| > 0
    ensures r.Ok? <==> parsed.Some? && Validate(registry, parsed.value).Ok?
    ensures r.Ok? ==> fresh(r.value) && r.value.Valid() && r.value.registry == registry
                      && r.value.checks == Validate(registry, parsed.value).value
    ensures r.Ok? ==> r.value.configPath == Some(path) && r.value.config == parsed.value
    ensures parsed.None? ==> r == Err(Unparsable)
    ensures parsed.Some? && Validate(registry, parsed.value).Err? ==>
              r == Err(Validate(registry, parsed.value).error)
  {
    var checker := new PolicyChecker(registry);
    var outcome := checker.SetConfig(path, parsed);
    if outcome.Fail? {
      return Err(outcome.error);
    }
    return Ok(checker);
  }
}
