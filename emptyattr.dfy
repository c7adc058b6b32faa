/** The `empty_typeattr` policy check: it asserts that a type attribute has
    no member types, and can be told to pass when the attribute does not
    exist in the policy at all.

    The policy and the configuration helpers it uses are not part of this
    model; they are the check's constant function fields: `lookup` for the
    policy's type attribute lookup (`None` where the lookup raises
    InvalidType), `expand` for the attribute's member types (by name) and
    `boolValue` for the configuration's boolean parser. */
module EmptyAttr {
  import opened Wrappers
  import opened NameOrder

  /** The option names the check reads from its configuration section. */
  const AttrOpt := "attr"
  const MissingOkOpt := "missing_ok"

  /** The `_attr` field: not set yet, a type attribute of the policy, or the
      name of an attribute the policy does not have. */
  datatype AttrSetting<A> = NoAttr | Resolved(attr: A) | Missing(name: string)

  /** The InvalidCheckValue errors of the `attr` setter. */
  datatype CheckValueError = AttrSettingMissing | AttrLookupFailed(name: string)

  /** What `run` raises when the attribute was never resolved and the check
      is not passing by absence: `expand()` called on a name or on None. */
  datatype RunError = AttributeError

  /** Python falsiness of an optional configuration value. */
  predicate Falsy(value: Option<string>)
  {
    value.None? || value.value == ""
  }

  /** `config.get(key)` on a configuration section. */
  function ConfigGet(config: map<string, string>, key: string): Option<string>
  {
    if key in config then Some(config[key]) else None
  }

  /** The invariant of the three fields: the check passes by absence exactly
      when absence is allowed and the attribute is an unresolved name. */
  predicate PassByMissingConsistent<A>(attr: AttrSetting<A>, missingOk: bool, passByMissing: bool)
  {
    passByMissing <==> missingOk && attr.Missing?
  }

  class EmptyTypeAttr<A> {
    const checkname: string
    const lookup: string -> Option<A>
    const expand: A -> seq<string>
    const boolValue: Option<string> -> bool

    var attr: AttrSetting<A>
    var missingOk: bool
    var passByMissing: bool

    ghost predicate Valid()
      reads this
    {
      PassByMissingConsistent(attr, missingOk, passByMissing)
    }

    /** The constructor up to, but not including, the `attr` setting: the
        defaults, then the `missing_ok` setter on the configured value. */
    constructor (checkname: string, lookup: string -> Option<A>, expand: A -> seq<string>,
                 boolValue: Option<string> -> bool, missingOkSetting: Option<string>)
      ensures Valid()
      ensures this.checkname == checkname && this.lookup == lookup
      ensures this.expand == expand && this.boolValue == boolValue
      ensures attr == NoAttr && missingOk == boolValue(missingOkSetting) && !passByMissing
    {
      this.checkname := checkname;
      this.lookup := lookup;
      this.expand := expand;
      this.boolValue := boolValue;
      attr := NoAttr;
      missingOk := false;
      passByMissing := false;
      new;
      SetMissingOk(missingOkSetting);
    }

    /** The `attr` setter. A missing or empty value is refused before any
        field changes; a name the policy resolves is stored resolved and
        stops any pass by absence; an unknown name is refused unless absence
        is allowed, in which case the name is stored and the check passes
        by absence. Refusals leave every field as it was. */
    method SetAttr(value: Option<string>) returns (outcome: Outcome<CheckValueError>)
      requires Valid()
      modifies this`attr, this`passByMissing
      ensures Valid()
      ensures Falsy(value) ==>
                outcome == Fail(AttrSettingMissing)
                && attr == old(attr) && passByMissing == old(passByMissing)
      ensures !Falsy(value) && lookup(value.value).Some? ==>
                outcome == Pass && attr == Resolved(lookup(value.value).value) && !passByMissing
      ensures !Falsy(value) && lookup(value.value).None? && !missingOk ==>
                outcome == Fail(AttrLookupFailed(value.value))
                && attr == old(attr) && passByMissing == old(passByMissing)
      ensures !Falsy(value) && lookup(value.value).None? && missingOk ==>
                outcome == Pass && attr == Missing(value.value) && passByMissing
    {
      if Falsy(value) {
        return Fail(AttrSettingMissing);
      }
      var found := lookup(value.value);
      if found.Some? {
        attr := Resolved(found.value);
        passByMissing := false;
      } else {
        if !missingOk {
          return Fail(AttrLookupFailed(value.value));
        }
        attr := Missing(value.value);
        passByMissing := true;
      }
      outcome := Pass;
    }

    /** The `missing_ok` setter: it parses the value and recomputes whether
        the check passes by absence from the new flag and the current
        attribute, so the invariant holds afterwards whatever held before. */
    method SetMissingOk(value: Option<string>)
      modifies this`missingOk, this`passByMissing
      ensures Valid()
      ensures missingOk == boolValue(value)
      ensures passByMissing == (boolValue(value) && attr.Missing?)
    {
      missingOk := boolValue(value);
      if missingOk && attr.Missing? {
        passByMissing := true;
      } else {
        passByMissing := false;
      }
    }

    /** `run`: no failures when the check passes by absence; otherwise the
        attribute's member types, all of them and in sorted order, which is
        empty exactly when the attribute has no members. An attribute that
        is not resolved at that point raises AttributeError. */
    method Run() returns (r: Result<seq<string>, RunError>)
      ensures passByMissing ==> r == Ok([])
      ensures !passByMissing && attr.Resolved? ==>
                r.Ok? && IsSorted(r.value) && multiset(r.value) == multiset(expand(attr.attr))
                && (r.value == [] <==> expand(attr.attr) == [])
      ensures !passByMissing && !attr.Resolved? ==> r == Err(AttributeError)
    {
      var failures := [];
      if passByMissing {
        return Ok(failures);
      }
      if !attr.Resolved? {
        return Err(AttributeError);
      }
      var types := Sort(expand(attr.attr));
      for i := 0 to |types|
        invariant failures == types[..i]
      {
        failures := failures + [types[i]];
      }
      assert failures == types;
      if types == [] {
        assert |multiset(expand(attr.attr))| == 0;
      }
      return Ok(failures);
    }
  }

  /** The whole constructor: the defaults, `missing_ok` and then `attr` from
      the check's configuration section; a refused `attr` makes the
      construction fail with the setter's error. */
  method NewEmptyTypeAttr<A>(checkname: string, config: map<string, string>,
                             lookup: string -> Option<A>, expand: A -> seq<string>,
                             boolValue: Option<string> -> bool)
    returns (r: Result<EmptyTypeAttr<A>, CheckValueError>)
    ensures r.Ok? <==>
              !Falsy(ConfigGet(config, AttrOpt))
              && (lookup(ConfigGet(config, AttrOpt).value).Some? || boolValue(ConfigGet(config, MissingOkOpt)))
    ensures r.Ok? ==>
              fresh(r.value) && r.value.Valid() && !r.value.attr.NoAttr?
              && r.value.missingOk == boolValue(ConfigGet(config, MissingOkOpt))
              && r.value.expand == expand && r.value.lookup == lookup
    ensures r.Ok? ==>
              var name := ConfigGet(config, AttrOpt).value;
              r.value.attr == (if lookup(name).Some? then Resolved(lookup(name).value) else Missing(name))
    ensures Falsy(ConfigGet(config, AttrOpt)) ==> r == Err(AttrSettingMissing)
    ensures !Falsy(ConfigGet(config, AttrOpt)) && lookup(ConfigGet(config, AttrOpt).value).None?
            && !boolValue(ConfigGet(config, MissingOkOpt)) ==>
              r == Err(AttrLookupFailed(ConfigGet(config, AttrOpt).value))
  {
    var check := new EmptyTypeAttr(checkname, lookup, expand, boolValue, ConfigGet(config, MissingOkOpt));
    var outcome := check.SetAttr(ConfigGet(config, AttrOpt));
    if outcome.Fail? {
      return Err(outcome.error);
    }
    return Ok(check);
  }

  /** Any check that allows absence, given an attribute name the policy
      does not have, passes by absence; once `missing_ok` is cleared, the
      attribute is still the bare name and `run` raises. */
  method MissingOkClearedThenRun<A>(check: EmptyTypeAttr<A>, name: string, cleared: Option<string>)
    returns (before: Result<seq<string>, RunError>, after: Result<seq<string>, RunError>)
    requires check.Valid() && check.missingOk
    requires name != "" && check.lookup(name).None? && !check.boolValue(cleared)
    modifies check
    ensures before == Ok([])
    ensures after == Err(AttributeError)
    ensures check.Valid() && check.attr == Missing(name) && !check.missingOk && !check.passByMissing
  {
    var outcome := check.SetAttr(Some(name));
    before := check.Run();
    check.SetMissingOk(cleared);
    after := check.Run();
  }
}
