/**
 * The feature checkbox logic both admin room pages share: their private
 * `getCheckboxId` table lookup (a property read that falls back to null) and the loops that
 * check or uncheck the box of each named feature that has one.
 */
module FeatureCheckboxes {
  import opened Wrappers

  /** One browser action on an admin room form. */
  datatype FormStep =
    | Fill(field: string, value: string)
    | SelectOption(field: string, value: string)
    | Check(checkbox: string)
    | Uncheck(checkbox: string)
    | Click(target: string)

  /** A page's private feature-name to checkbox-id object literal. */
  type Table = map<string, string>

  /** The names every plain JavaScript object inherits from `Object.prototype`. */
  const ObjectPrototypeMembers: set<string> := {
    "constructor", "hasOwnProperty", "isPrototypeOf", "propertyIsEnumerable",
    "toLocaleString", "toString", "valueOf", "__proto__", "__defineGetter__",
    "__defineSetter__", "__lookupGetter__", "__lookupSetter__"
  }

  /** What reading a key of an object literal, with null for a falsy value, gives. */
  datatype JsLookup = IdString(id: string) | InheritedMember(name: string) | Null

  /** The lookup as the pages write it: members inherited by every object are found too. */
  function LookupAsWritten(table: Table, key: string): JsLookup
  {
    if key in table then (if table[key] != "" then IdString(table[key]) else Null)
    else if key in ObjectPrototypeMembers then InheritedMember(key)
    else Null
  }

  /**
   * The lookup `getCheckboxId` is declared to perform (`string | null`): a
   * non-empty id of the table's own keys, or nothing.
   */
  function Lookup(table: Table, key: string): (id: Option<string>)
  {
    if key in table && table[key] != "" then Some(table[key]) else None
  }

  /**
   * As written, looking up an inherited member name such as "toString" yields
   * that member, which is not null; the intended lookup yields nothing.
   */
  lemma PrototypeNameIsNotNull(table: Table, name: string)
    requires name in ObjectPrototypeMembers && name !in table
    ensures LookupAsWritten(table, name) == InheritedMember(name)
    ensures LookupAsWritten(table, name) != Null
    ensures Lookup(table, name) == None
  {
  }

  /**
   * The intended lookup yields only ids of the table, and it differs from the
   * lookup as written only on the inherited member names.
   */
  lemma LookupYieldsTableIds(table: Table, key: string)
    ensures Lookup(table, key).Some? ==> Lookup(table, key).value in table.Values
    ensures key !in ObjectPrototypeMembers || key in table ==>
      LookupAsWritten(table, key) == (match Lookup(table, key) case Some(x) => IdString(x) case None => Null)
  {
  }

  /** The step one loop iteration takes for a looked-up id: none when there is no id. */
  function StepFor(id: Option<string>, check: bool): seq<FormStep>
  {
    match id
    case None => []
    case Some(x) => if check then [Check(x)] else [Uncheck(x)]
  }

  /**
   * The steps of a loop over `features` that looks up each name and checks
   * (or unchecks) the box when there is an id, in loop order.
   */
  function LoopSteps(table: Table, features: seq<string>, check: bool): seq<FormStep>
  {
    if features == [] then []
    else LoopSteps(table, features[..|features| - 1], check)
         + StepFor(Lookup(table, features[|features| - 1]), check)
  }

  /** The box one loop iteration touches, as a set: empty when there is no id. */
  function IdSet(id: Option<string>): set<string>
  {
    match id
    case None => {}
    case Some(x) => {x}
  }

  /** The checkbox ids such a loop touches. */
  function MappedIds(table: Table, features: seq<string>): set<string>
  {
    if features == [] then {}
    else MappedIds(table, features[..|features| - 1])
         + IdSet(Lookup(table, features[|features| - 1]))
  }

  /** The loop touches exactly the ids of the requested features that have one. */
  lemma {:induction false} MappedIdsMembers(table: Table, features: seq<string>, id: string)
    ensures id in MappedIds(table, features) <==>
            exists i :: 0 <= i < |features| && Lookup(table, features[i]) == Some(id)
  {
    if features != [] {
      var init := features[..|features| - 1];
      MappedIdsMembers(table, init, id);
      if id in MappedIds(table, init) {
        var i :| 0 <= i < |init| && Lookup(table, init[i]) == Some(id);
        assert features[i] == init[i];
      }
      if i :| 0 <= i < |features| && Lookup(table, features[i]) == Some(id) {
        if i < |init| {
          assert init[i] == features[i];
        }
      }
    }
  }

  /** The box of every requested name that has one is touched. */
  lemma RequestedIdTouched(table: Table, features: seq<string>, f: string)
    requires f in features && Lookup(table, f).Some?
    ensures Lookup(table, f).value in MappedIds(table, features)
  {
    var k :| 0 <= k < |features| && features[k] == f;
    MappedIdsMembers(table, features, Lookup(table, f).value);
  }

  /** Every looked-up id is an id of the table. */
  lemma {:induction false} MappedIdsInTable(table: Table, features: seq<string>)
    ensures MappedIds(table, features) <= table.Values
  {
    forall id | id in MappedIds(table, features) ensures id in table.Values {
      MappedIdsMembers(table, features, id);
      var i :| 0 <= i < |features| && Lookup(table, features[i]) == Some(id);
    }
  }

  /** The loop's steps are all checks (or all unchecks), of exactly the looked-up ids. */
  lemma {:induction false} LoopStepsTouchMappedIds(table: Table, features: seq<string>, check: bool)
    ensures forall k :: 0 <= k < |LoopSteps(table, features, check)| ==>
      var step := LoopSteps(table, features, check)[k];
      (if check then step.Check? else step.Uncheck?) && step.checkbox in MappedIds(table, features)
  {
    if features != [] {
      var init := features[..|features| - 1];
      LoopStepsTouchMappedIds(table, init, check);
    }
  }

  /** The checked set after a loop checks (or unchecks) the boxes `ids`. */
  function Toggled(checked: set<string>, ids: set<string>, check: bool): set<string>
  {
    if check then checked + ids else checked - ids
  }

  /**
   * The loop's invariant carries over one iteration: when the checked set and
   * the step log are those after the first `i` names, adding the box and step
   * of `features[i]` gives those after the first `i + 1`.
   */
  lemma NextIteration(table: Table, features: seq<string>, i: nat, check: bool,
                      prior: set<string>, before: seq<FormStep>, checked: set<string>, steps: seq<FormStep>)
    requires i < |features|
    requires checked == Toggled(prior, MappedIds(table, features[..i]), check)
    requires steps == before + LoopSteps(table, features[..i], check)
    ensures Toggled(checked, IdSet(Lookup(table, features[i])), check) ==
            Toggled(prior, MappedIds(table, features[..i + 1]), check)
    ensures steps + StepFor(Lookup(table, features[i]), check) ==
            before + LoopSteps(table, features[..i + 1], check)
  {
    NextFeature(table, features, i, check);
  }

  /** One more feature adds its own step and id, if it has one, after those of the others. */
  lemma AppendFeature(table: Table, features: seq<string>, x: string, check: bool)
    ensures LoopSteps(table, features + [x], check) == LoopSteps(table, features, check) + StepFor(Lookup(table, x), check)
    ensures MappedIds(table, features + [x]) ==
            MappedIds(table, features) + IdSet(Lookup(table, x))
  {
    assert (features + [x])[..|features|] == features;
  }

  /** Iteration `i` of the loop adds the step and id of `features[i]`. */
  lemma NextFeature(table: Table, features: seq<string>, i: nat, check: bool)
    requires i < |features|
    ensures LoopSteps(table, features[..i + 1], check) ==
            LoopSteps(table, features[..i], check) + StepFor(Lookup(table, features[i]), check)
    ensures MappedIds(table, features[..i + 1]) ==
            MappedIds(table, features[..i]) + IdSet(Lookup(table, features[i]))
  {
    assert features[..i + 1][..i] == features[..i];
  }

  /** Running the loop over `a + b` takes the steps of running it over `a`, then those over `b`. */
  lemma {:induction false} LoopStepsOverConcat(table: Table, a: seq<string>, b: seq<string>, check: bool)
    ensures LoopSteps(table, a + b, check) == LoopSteps(table, a, check) + LoopSteps(table, b, check)
  {
    if b == [] {
      assert a + b == a;
    } else {
      var init, x := b[..|b| - 1], b[|b| - 1];
      assert (a + b)[..|a + b| - 1] == a + init && (a + b)[|a + b| - 1] == x;
      LoopStepsOverConcat(table, a, init, check);
    }
  }

  /** Running the loop over `a + b` touches the ids of both. */
  lemma {:induction false} MappedIdsOverConcat(table: Table, a: seq<string>, b: seq<string>)
    ensures MappedIds(table, a + b) == MappedIds(table, a) + MappedIds(table, b)
  {
    if b == [] {
      assert a + b == a;
    } else {
      var init, x := b[..|b| - 1], b[|b| - 1];
      assert (a + b)[..|a + b| - 1] == a + init && (a + b)[|a + b| - 1] == x;
      MappedIdsOverConcat(table, a, init);
    }
  }

  /** A name without an id adds no step and touches no box, wherever it stands in the list. */
  lemma SkippedName(table: Table, a: seq<string>, name: string, b: seq<string>, check: bool)
    requires Lookup(table, name).None?
    ensures LoopSteps(table, a + [name] + b, check) == LoopSteps(table, a + b, check)
    ensures MappedIds(table, a + [name] + b) == MappedIds(table, a + b)
  {
    LoopStepsOverConcat(table, a + [name], b, check);
    LoopStepsOverConcat(table, a, b, check);
    MappedIdsOverConcat(table, a + [name], b);
    MappedIdsOverConcat(table, a, b);
    AppendFeature(table, a, name, check);
  }
}
