# SETools query and checker core, in Dafny

This project models three small stateful components of SETools, the
SELinux policy analysis library:

- **The pirqcon query** (`Pirqcon`, `pirqconquery.dfy`). This query finds
  Xen physical-IRQ context statements. Its `irq` setter validates an
  `(low, high)` pair and stores it, refuses it or clears it. Its `results`
  loop yields, in the policy's order, the pirqcons whose IRQ pair equals a
  set criterion and whose context passes the base query's context test.
  The model proves that this output is exactly the order-preserving
  selection of the passing pirqcons.
- **The `empty_typeattr` check** (`EmptyAttr`, `emptyattr.dfy`, with
  `NameOrder`, `nameorder.dfy`, for Python's `sorted()` on symbol names).
  Its `attr` and `missing_ok` setters keep one invariant: the check passes
  by absence exactly when absence is allowed and the attribute is an
  unresolved name. `run` returns no failures in that case. Otherwise it
  returns the attribute's member types, sorted.
- **The policy checker** (`Checker`, `checker.dfy`). The `config` setter
  turns the configuration's sections into checks. DEFAULT is skipped. The
  whole configuration is refused on the first bad section, or when no
  check results. A refused configuration leaves the checker's state
  untouched. `run` adds up the failures of the checks and gives each check
  its PASSED/FAILED verdict.

Collaborators outside these files are parameters or constant function
fields:

- the base query's context test is `matchContext`;
- the policy's pirqcons are the `pirqcons` sequence;
- `policy.lookup_typeattr` is `lookup`, which is `None` where the lookup
  raises InvalidType;
- `attr.expand()` is `expand`, which gives member type names;
- `config_bool_value` is `boolValue`;
- each check class's constructor is a registry `Factory`;
- the result of running a check is `outcome`;
- the parsed configuration file is `parsed`.

Any IRQ pair with a zero component, such as `(0, 5)`, clears the
criterion without error, because `setools/pirqconquery.py:69` tests the
truthiness of both components before it tests `low`.
`PirqconQuery.SetIrq` states this.

Two behaviours of the code are stated as written:

- `EmptyTypeAttr`: `missing_ok` can be cleared after an unknown attribute
  name was accepted. After that the check no longer passes by absence,
  and `run` calls `expand()` on a string. The model's `Run` returns
  `Err(AttributeError)` there, and `MissingOkClearedThenRun` proves the
  sequence of calls for any check, attribute name and cleared value.
- `PolicyChecker.config`: the `except KeyError` handler also covers the
  constructor call of a registered check type. A KeyError raised inside
  that constructor is therefore reported as an unknown check type.
  `ConstructorKeyErrorRefused` states this.

## Model

| member | source | states |
|---|---|---|
| `Pirqcon.PirqconQuery.constructor` | setools/pirqconquery.py:59 | A new query has no IRQ criterion and satisfies the setter's invariant |
| `Pirqcon.PirqconQuery.SetIrq` | setools/pirqconquery.py:65-75 | Both components non-zero and `low < 1`: ValueError with the pending pair, criterion unchanged. Both non-zero and `low >= 1`: the criterion becomes exactly that pair, with no check of `high` or of `low <= high`. Either component zero, e.g. `(0, 5)`: no error, criterion cleared. The invariant "unset, or `low >= 1` and `high != 0`" is preserved |
| `Pirqcon.PirqconQuery.Results` | setools/pirqconquery.py:81-99 | The output is the selection of the passing pirqcons. It is a subsequence of the policy's pirqcons in their order. Each yielded pirqcon has the set IRQ pair and a context passing `matchContext`. The method modifies nothing, so repeated calls with unchanged criteria give the same sequence |
| `Pirqcon.SelectedAppend` | setools/pirqconquery.py:91-99 | Filtering a concatenation filters each part in turn, so the loop may extend its output one pirqcon at a time |
| `Pirqcon.SelectedSound` | setools/pirqconquery.py:93-97 | Every yielded pirqcon's IRQ equals the criterion whenever one is set, and its context satisfies the context test |
| `Pirqcon.SelectedCounts` | setools/pirqconquery.py:91-99 | Every pirqcon passing both tests appears as often as the policy lists it. Every other pirqcon does not appear |
| `Pirqcon.SelectedIsSubsequence` | setools/pirqconquery.py:91-99 | The output is a subsequence of the policy's pirqcons, in the same order |
| `Pirqcon.SelectedWildcard` | setools/pirqconquery.py:91-99 | With no IRQ criterion and a context test that always holds, the output is all pirqcons, in order |
| `NameOrder.NameLeReflexive` | setools/checker/emptyattr.py:98 | The name order used by `sorted()` is reflexive |
| `NameOrder.NameLeTotal` | setools/checker/emptyattr.py:98 | Any two names are comparable |
| `NameOrder.NameLeTransitive` | setools/checker/emptyattr.py:98 | The name order is transitive |
| `NameOrder.NameLeAntisymmetric` | setools/checker/emptyattr.py:98 | Names that are each at most the other are equal |
| `NameOrder.Insert` | setools/checker/emptyattr.py:98 | Inserting a name into a sorted sequence keeps it sorted and adds exactly that name |
| `NameOrder.Sort` | setools/checker/emptyattr.py:98 | `sorted()` returns a sorted permutation of its input |
| `NameOrder.SortedUnique` | setools/checker/emptyattr.py:98 | Two sorted sequences with the same names are equal, so the sorted result is unique |
| `EmptyAttr.EmptyTypeAttr.constructor` | setools/checker/emptyattr.py:38-49 | Defaults: no attribute, `missing_ok` false, no pass by absence. Then the `missing_ok` setter runs on the configured value. The invariant holds afterwards |
| `EmptyAttr.EmptyTypeAttr.SetAttr` | setools/checker/emptyattr.py:56-72 | A falsy value raises before any field changes. A resolved name stores the attribute and clears the pass by absence. An unknown name without `missing_ok` raises with `_attr` and `_pass_by_missing` unchanged. An unknown name with `missing_ok` stores the raw name and sets the pass by absence. The invariant is preserved |
| `EmptyAttr.EmptyTypeAttr.SetMissingOk` | setools/checker/emptyattr.py:78-86 | The flag becomes the parsed value. The pass by absence becomes (new flag and attribute is an unresolved name). The invariant holds whatever held before |
| `EmptyAttr.EmptyTypeAttr.Run` | setools/checker/emptyattr.py:88-107 | When passing by absence: no failures. Otherwise, for a resolved attribute: exactly its member types, sorted, empty iff it has no members. Otherwise: AttributeError |
| `EmptyAttr.NewEmptyTypeAttr` | setools/checker/emptyattr.py:38-50 | Construction succeeds iff the `attr` option is non-empty and either resolves or `missing_ok` is set. A missing `attr` option fails with the "setting is missing" error. An unknown `attr` name without `missing_ok` fails with the "attr setting error" naming it. A built check satisfies the invariant, has `missing_ok` from the configuration, and holds the resolved attribute, or the raw name when the policy lacks it |
| `EmptyAttr.MissingOkClearedThenRun` | setools/checker/emptyattr.py:78-98 | For any check with `missing_ok` set and any non-empty name the policy lacks: setting `attr` to it makes `run` return no failures. After `missing_ok` is cleared, the attribute is still the bare name, the check no longer passes by absence, and `run` raises AttributeError |
| `Checker.CollectAppend` | setools/checker/checker.py:66-84 | Validating a concatenation of sections gives the first part's error, else the second part's error, else both parts' checks in order |
| `Checker.DefaultIgnored` | setools/checker/checker.py:67-70 | DEFAULT sections never produce a check. Validating the configuration equals validating its non-DEFAULT sections |
| `Checker.CollectNoDefault` | setools/checker/checker.py:72-84 | Over non-DEFAULT sections, the loop succeeds iff every section builds a check. It then yields one check per section, in order |
| `Checker.CollectFirstError` | setools/checker/checker.py:72-84 | Over non-DEFAULT sections, the loop fails with the error of the first section that does not build a check |
| `Checker.ValidateOk` | setools/checker/checker.py:66-87 | On success there is at least one check. There is one check per non-DEFAULT section, built from it, in section order |
| `Checker.ValidateSucceeds` | setools/checker/checker.py:66-87 | If at least one non-DEFAULT section exists and each builds a check, validation succeeds |
| `Checker.ValidateFirstError` | setools/checker/checker.py:72-84 | Validation fails with the first failing non-DEFAULT section's error |
| `Checker.MissingKeyRefused` | setools/checker/checker.py:72-76 | A section without the check type key, after only good sections, fails with InvalidCheckerModule for that section |
| `Checker.UnknownTypeRefused` | setools/checker/checker.py:78-82 | A section whose check type is not registered, after only good sections, fails with InvalidCheckerModule naming the section and the type |
| `Checker.ConstructorKeyErrorRefused` | setools/checker/checker.py:78-82 | A registered check type whose constructor raises KeyError, after only good sections, fails with InvalidCheckerModule as an unknown check type, naming the section and the type |
| `Checker.NoChecksRefused` | setools/checker/checker.py:86-87 | A configuration with no non-DEFAULT section fails with InvalidCheckerConfig |
| `Checker.ValidateSections` | setools/checker/checker.py:66-87 | The validation loop and emptiness test compute exactly `Validate` |
| `Checker.PolicyChecker.constructor` | setools/checker/checker.py:41-46 | A checker starts with the given registry, no configuration and no checks. The registry must be non-empty |
| `Checker.PolicyChecker.SetConfig` | setools/checker/checker.py:53-93 | An unparsable file or a failed validation is refused, with path, configuration and checks unchanged. On success all three are replaced together and the checker has at least one check |
| `Checker.NewPolicyChecker` | setools/checker/checker.py:41-47 | A checker is built iff its first configuration is accepted. It then holds the given path, the parsed configuration and that configuration's checks. An unparsable file fails with InvalidCheckerConfig, and a refused configuration fails with the validation's own error (InvalidCheckerModule, InvalidCheckerConfig or the check constructor's error) |
| `Checker.VerdictOf` | setools/checker/checker.py:115-131 | A disabled check gets no verdict line. Any other check is FAILED iff it counted failures |
| `Checker.TallyAppend` | setools/checker/checker.py:106-132 | The total over two groups of checks is the sum of their totals |
| `Checker.TallyZeroIffNoneFailed` | setools/checker/checker.py:106-132 | The total is zero iff no check is reported FAILED. Each check's count is at most the total |
| `Checker.PolicyChecker.Run` | setools/checker/checker.py:95-138 | The result is the sum of the per-check counts: 0 if disabled, the number of returned failures if it ran, exactly 1 if it raised. Each check gets its verdict. The result is zero iff no check is FAILED |

## Left out

- Logging, the report text written to `output`, the timestamps and the opening and parsing of the configuration file are left out. They are I/O and diagnostics. The parsed configuration is a parameter.
- Each section's `Options` map is taken to be configparser's combined view of that section, which also holds the DEFAULT section's options. Both `checkconfig[CHECK_TYPE_KEY]` (`setools/checker/checker.py:73`) and `config.get` (`setools/checker/emptyattr.py:49-50`) read this view, so a `check_type` or `attr` given only under DEFAULT is seen by every section. Building that view is part of the parsing, which is left out.
- The base context query and its context matching are not part of this model. This covers user, role and type literal or regex matching and MLS range relations. The test is the opaque predicate `matchContext`.
- The query constructor's keyword arguments are left out. They set criteria through the same setters. So are the `irq` getter, which reads the field, and the log lines of `results`.
- `results` is a generator in the source. The model returns the whole sequence, so laziness and early cancellation are not captured.
- `pirq(*value)` with other than two components raises TypeError in the source. The setter's model takes exactly two integers.
- The pirqcon's own `irq` attribute is taken to be a `pirq` pair compared by value. The policy representation that defines it is not part of this model.
- The check base class constructor (`checkermodule.py`) is not part of this model. That includes its handling of `desc`, `disable` and the allowed options. The check's `disable` flag appears only as the `Disabled` outcome.
- The value of the check type key is taken as `check_type`. The key is defined in `globalkeys.py`, which is not part of this model, and no proof depends on its value.
- InvalidCheckValue is modelled as distinct from InvalidType, so the `attr` setter's "setting is missing" error is not caught by its own `except InvalidType`. `exception.py` is not part of this model.
- `config_bool_value`, `lookup_typeattr` and `expand` are total functions. Errors they might raise, other than the lookup's InvalidType, are not modelled.
- NameOrder.Sort: assumes that policy symbols sort by their names, so a type is identified by its name and names are ordered as Python orders strings, code point by code point with a proper prefix first. The symbol classes that define this ordering are not part of this model. Under that assumption `NameOrder.SortedUnique` shows that there is only one sorted arrangement of a set of names, so `Sort` returns what `sorted()` returns.
- Checker.PolicyChecker.Run: a check that raises after its returned failures were added counts `n + 1` in the source. This can happen when writing the report fails. The model counts any raising check as 1, because report writing is not modelled.
