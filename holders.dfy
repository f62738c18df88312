/**
 * The two flag holders of flagenum.go, multipleValues and singleValue: the
 * objects the host flag parser calls `Set` on once per occurrence of the
 * flag. Each `Set` is specified by a pure step function on the holder's
 * mutable fields; lemmas about runs of steps state what a whole command
 * line does to a holder.
 */
module Holders {
  import opened FlagErrors
  import opened Text
  import opened Validation

  /** What one `Set` call leaves behind: the holder's new mutable state and its error. */
  datatype Step<S, V> = Step(state: S, err: Option<FlagError<V>>)

  /** The fields of multipleValues that `Set` changes. */
  datatype MultipleState<V> = MultipleState(values: seq<V>, uniques: set<V>, defaultCleared: bool)

  /** The values a multipleValues holder keeps when `Set` starts: none while the defaults are still in place. */
  function Kept<V>(st: MultipleState<V>): seq<V> {
    if st.defaultCleared then st.values else []
  }

  /**
   * multipleValues.Set on value `v`: clear the defaults on the first call,
   * record `v` among the values seen (before the allow-list check), reject a
   * value seen before or outside the allow-list, else append `v`.
   */
  function MultipleStep<V(==)>(name: string, allowed: seq<V>, allowedUniques: set<V>, toStr: V -> string,
                               st: MultipleState<V>, v: V): (r: Step<MultipleState<V>, V>)
    ensures r.state.defaultCleared
    ensures r.state.uniques == st.uniques + {v}
    ensures r.err.None? <==> v !in st.uniques && Permitted(allowed, allowedUniques, v)
    ensures v in st.uniques ==> r.err == Some(Duplicated("", v, name))
    ensures v !in st.uniques && !Permitted(allowed, allowedUniques, v) ==> r.err == Some(NotAllowed(Csv(toStr, allowed)))
    ensures r.state.values == Kept(st) + (if r.err.None? then [v] else [])
  {
    var kept := Kept(st);
    var populated := PopulateUniques("", v, st.uniques, name);
    if populated.1.Some? then
      Step(MultipleState(kept, populated.0, true), populated.1)
    else
      match CheckAllowed(v, allowed, allowedUniques, toStr)
      case Some(e) => Step(MultipleState(kept, populated.0, true), Some(e))
      case None => Step(MultipleState(kept + [v], populated.0, true), None)
  }

  /** `Set` applied to each value in turn, stopping at the first error, as a parse does. */
  function MultipleRun<V(==)>(name: string, allowed: seq<V>, allowedUniques: set<V>, toStr: V -> string,
                              st: MultipleState<V>, vs: seq<V>): Step<MultipleState<V>, V>
    decreases |vs|
  {
    if vs == [] then Step(st, None)
    else
      var r := MultipleStep(name, allowed, allowedUniques, toStr, st, vs[0]);
      if r.err.Some? then r else MultipleRun(name, allowed, allowedUniques, toStr, r.state, vs[1..])
  }

  /** The values a run can accept: pairwise distinct, not seen before, each permitted by the allow-list. */
  predicate Admissible<V(==)>(allowed: seq<V>, allowedUniques: set<V>, seen: set<V>, vs: seq<V>) {
    Distinct(vs) && forall i :: 0 <= i < |vs| ==> vs[i] !in seen && Permitted(allowed, allowedUniques, vs[i])
  }

  /** Admissibility of a non-empty run, split at its first value. */
  lemma AdmissibleCons<V>(allowed: seq<V>, allowedUniques: set<V>, seen: set<V>, vs: seq<V>)
    requires |vs| > 0
    ensures Admissible(allowed, allowedUniques, seen, vs) <==>
      vs[0] !in seen && Permitted(allowed, allowedUniques, vs[0]) &&
      Admissible(allowed, allowedUniques, seen + {vs[0]}, vs[1..])
  {
    assert forall i :: 1 <= i < |vs| ==> vs[i] == vs[1..][i - 1];
  }

  /**
   * A non-empty run succeeds exactly when its values are admissible; it then
   * leaves the kept values followed by the run's values, and has recorded them all.
   */
  lemma {:induction false} MultipleRunOutcome<V>(name: string, allowed: seq<V>, allowedUniques: set<V>,
                                                 toStr: V -> string, st: MultipleState<V>, vs: seq<V>)
    requires |vs| > 0
    ensures var r := MultipleRun(name, allowed, allowedUniques, toStr, st, vs);
      (r.err.None? <==> Admissible(allowed, allowedUniques, st.uniques, vs)) &&
      (r.err.None? ==> r.state == MultipleState(Kept(st) + vs, st.uniques + Elems(vs), true))
    decreases |vs|
  {
    var r1 := MultipleStep(name, allowed, allowedUniques, toStr, st, vs[0]);
    var rest := vs[1..];
    AdmissibleCons(allowed, allowedUniques, st.uniques, vs);
    if r1.err.None? {
      ElemsCons(vs);
      if rest == [] {
        assert vs == [vs[0]];
      } else {
        MultipleRunOutcome(name, allowed, allowedUniques, toStr, r1.state, rest);
        assert Kept(st) + vs == Kept(st) + [vs[0]] + rest;
      }
    }
  }

  /** The elements of a non-empty sequence: its first one and those of the rest. */
  lemma ElemsCons<V>(vs: seq<V>)
    requires |vs| > 0
    ensures Elems(vs) == {vs[0]} + Elems(vs[1..])
  {
    assert vs == [vs[0]] + vs[1..];
  }

  /**
   * From a fresh holder, a non-empty run succeeds exactly when its values are
   * distinct and permitted, and then the values are the run's values: the
   * defaults are replaced, not merged.
   */
  lemma DefaultsReplaced<V>(name: string, defaults: seq<V>, allowed: seq<V>, allowedUniques: set<V>,
                            toStr: V -> string, vs: seq<V>)
    requires |vs| > 0
    ensures var r := MultipleRun(name, allowed, allowedUniques, toStr, MultipleState(defaults, {}, false), vs);
      (r.err.None? <==> Distinct(vs) && forall i :: 0 <= i < |vs| ==> Permitted(allowed, allowedUniques, vs[i])) &&
      (r.err.None? ==> r.state.values == vs && r.state.uniques == Elems(vs))
  {
    MultipleRunOutcome(name, allowed, allowedUniques, toStr, MultipleState(defaults, {}, false), vs);
  }

  /**
   * A run whose values are permitted up to position `j`, distinct and unseen
   * before it, stops at `j` with the duplicate error when `vs[j]` was seen
   * before or occurs earlier in the run.
   */
  lemma {:induction false} MultipleRunStopsAtRepeat<V>(name: string, allowed: seq<V>, allowedUniques: set<V>,
                                                       toStr: V -> string, st: MultipleState<V>, vs: seq<V>, j: nat)
    requires j < |vs|
    requires Admissible(allowed, allowedUniques, st.uniques, vs[..j])
    requires vs[j] in st.uniques || vs[j] in vs[..j]
    ensures MultipleRun(name, allowed, allowedUniques, toStr, st, vs).err == Some(Duplicated("", vs[j], name))
    decreases j
  {
    if j > 0 {
      var r1 := MultipleStep(name, allowed, allowedUniques, toStr, st, vs[0]);
      var rest := vs[1..];
      assert vs[..j][0] == vs[0];
      assert forall i :: 1 <= i < j ==> rest[..j - 1][i - 1] == vs[..j][i];
      assert rest[j - 1] == vs[j];
      assert vs[j] in r1.state.uniques || vs[j] in rest[..j - 1] by {
        if vs[j] !in st.uniques && vs[j] != vs[0] {
          var i :| 0 <= i < j && vs[..j][i] == vs[j];
          assert rest[..j - 1][i - 1] == vs[j];
        }
      }
      MultipleRunStopsAtRepeat(name, allowed, allowedUniques, toStr, r1.state, rest, j - 1);
    }
  }

  /**
   * From a fresh holder with permitted values, repeating a value makes the
   * run fail with the duplicate error naming the first repeated value.
   */
  lemma RepeatedOccurrenceRejected<V>(name: string, defaults: seq<V>, allowed: seq<V>, allowedUniques: set<V>,
                                      toStr: V -> string, vs: seq<V>)
    requires !Distinct(vs)
    requires forall i :: 0 <= i < |vs| ==> Permitted(allowed, allowedUniques, vs[i])
    ensures MultipleRun(name, allowed, allowedUniques, toStr, MultipleState(defaults, {}, false), vs).err
            == Some(Duplicated("", vs[FirstRepeat(vs)], name))
  {
    var j := FirstRepeat(vs);
    assert forall i :: 0 <= i < j ==> vs[..j][i] == vs[i];
    MultipleRunStopsAtRepeat(name, allowed, allowedUniques, toStr, MultipleState(defaults, {}, false), vs, j);
  }

  /**
   * The value is recorded before the allow-list check, so even a rejected
   * value blocks every later attempt with the same value.
   */
  lemma RejectedValueBlocksRetry<V>(name: string, allowed: seq<V>, allowedUniques: set<V>, toStr: V -> string,
                                    st: MultipleState<V>, v: V)
    ensures var first := MultipleStep(name, allowed, allowedUniques, toStr, st, v);
      MultipleStep(name, allowed, allowedUniques, toStr, first.state, v).err == Some(Duplicated("", v, name))
  {
  }

  /** singleValue.Set on value `v`: overwrite the stored value when the allow-list admits `v`. */
  function SingleStep<V(==)>(allowed: seq<V>, allowedUniques: set<V>, toStr: V -> string, value: V, v: V): (r: Step<V, V>)
    ensures r.err.None? <==> Permitted(allowed, allowedUniques, v)
    ensures r.state == if r.err.None? then v else value
    ensures r.err.Some? ==> r.err.value == NotAllowed(Csv(toStr, allowed))
  {
    match CheckAllowed(v, allowed, allowedUniques, toStr)
    case Some(e) => Step(value, Some(e))
    case None => Step(v, None)
  }

  /** singleValue.Set applied to each value in turn, stopping at the first error. */
  function SingleRun<V(==)>(allowed: seq<V>, allowedUniques: set<V>, toStr: V -> string, value: V, vs: seq<V>): Step<V, V>
    decreases |vs|
  {
    if vs == [] then Step(value, None)
    else
      var r := SingleStep(allowed, allowedUniques, toStr, value, vs[0]);
      if r.err.Some? then r else SingleRun(allowed, allowedUniques, toStr, r.state, vs[1..])
  }

  /**
   * A non-empty run on a single holder succeeds exactly when every value is
   * permitted (repeats included: there is no duplicate tracking), and the
   * last value wins.
   */
  lemma {:induction false} SingleLastWins<V>(allowed: seq<V>, allowedUniques: set<V>, toStr: V -> string,
                                             value: V, vs: seq<V>)
    requires |vs| > 0
    ensures var r := SingleRun(allowed, allowedUniques, toStr, value, vs);
      (r.err.None? <==> forall i :: 0 <= i < |vs| ==> Permitted(allowed, allowedUniques, vs[i])) &&
      (r.err.None? ==> r.state == vs[|vs| - 1])
    decreases |vs|
  {
    var r1 := SingleStep(allowed, allowedUniques, toStr, value, vs[0]);
    var rest := vs[1..];
    if r1.err.None? && rest != [] {
      SingleLastWins(allowed, allowedUniques, toStr, r1.state, rest);
      assert forall i :: 1 <= i < |vs| ==> vs[i] == rest[i - 1];
    }
  }

  /** multipleValues: the holder Multiple registers for a multi-value flag. */
  class MultipleValues<V(==)> {
    const name: string
    var values: seq<V>
    const defaults: seq<V>
    const allowed: seq<V>
    var uniques: set<V>
    const allowedUniques: set<V>
    var defaultCleared: bool
    const toV: string -> V
    const toStr: V -> string

    /**
     * The allow-list and defaults passed registration; the values are
     * distinct and permitted; before the first `Set` they are the defaults,
     * after it every value is recorded as seen.
     */
    ghost predicate Valid()
      reads this
    {
      allowedUniques == Elems(allowed) && Distinct(allowed) &&
      Distinct(defaults) && (forall i :: 0 <= i < |defaults| ==> Permitted(allowed, allowedUniques, defaults[i])) &&
      Distinct(values) && (forall i :: 0 <= i < |values| ==> Permitted(allowed, allowedUniques, values[i])) &&
      (!defaultCleared ==> values == defaults && uniques == {}) &&
      (defaultCleared ==> Elems(values) <= uniques)
    }

    function State(): MultipleState<V>
      reads this
    {
      MultipleState(values, uniques, defaultCleared)
    }

    /** The struct literal of Multiple: the values start as a copy of the defaults. */
    constructor (name: string, defaults: seq<V>, allowed: seq<V>, allowedUniques: set<V>,
                 toV: string -> V, toStr: V -> string)
      requires allowedUniques == Elems(allowed) && Distinct(allowed) && Distinct(defaults)
      requires forall i :: 0 <= i < |defaults| ==> Permitted(allowed, allowedUniques, defaults[i])
      ensures Valid()
      ensures this.name == name && this.defaults == defaults && this.allowed == allowed
      ensures this.allowedUniques == allowedUniques && this.toV == toV && this.toStr == toStr
      ensures values == defaults && uniques == {} && !defaultCleared
    {
      this.name := name;
      this.values := defaults;
      this.defaults := defaults;
      this.allowed := allowed;
      this.uniques := {};
      this.allowedUniques := allowedUniques;
      this.defaultCleared := false;
      this.toV := toV;
      this.toStr := toStr;
    }

    /** Set: one occurrence of the flag with text `s`. */
    method Set(s: string) returns (err: Option<FlagError<V>>)
      requires Valid()
      modifies this
      ensures Valid()
      ensures Step(State(), err) == MultipleStep(name, allowed, allowedUniques, toStr, old(State()), toV(s))
    {
      if !defaultCleared {
        values := [];
        defaultCleared := true;
      }
      var v := toV(s);
      var populated := PopulateUniques("", v, uniques, name);
      uniques := populated.0;
      if populated.1.Some? {
        return populated.1;
      }
      err := CheckAllowed(v, allowed, allowedUniques, toStr);
      if err.Some? {
        return;
      }
      values := values + [v];
    }

    /** Values: the values given on the command line, or the defaults while there are none. */
    function Values(): (r: seq<V>)
      requires Valid()
      reads this
      ensures !defaultCleared ==> r == defaults
      ensures values != [] ==> r == values
      ensures values == [] ==> r == defaults
    {
      if |values| > 0 then values else defaults
    }

    /** String: the comma-joined rendering of Values(), as the usage text shows the default. */
    function String(): (r: string)
      requires Valid()
      reads this
      ensures values == [] ==> r == Csv(toStr, defaults)
      ensures values != [] ==> r == Csv(toStr, values)
    {
      Csv(toStr, Values())
    }
  }

  /** singleValue: the holder Single registers for a single-value flag. */
  class SingleValue<V(==)> {
    const name: string
    var value: V
    const allowed: seq<V>
    const allowedUniques: set<V>
    const toV: string -> V
    const toStr: V -> string
    /** Go's zero value of V: the default Single accepts without checking it. */
    ghost const zero: V

    /** The allow-list passed registration, and the value is permitted unless it is still the zero value. */
    ghost predicate Valid()
      reads this
    {
      allowedUniques == Elems(allowed) && Distinct(allowed) &&
      (value == zero || Permitted(allowed, allowedUniques, value))
    }

    /** The struct literal of Single. */
    constructor (name: string, value: V, ghost zero: V, allowed: seq<V>, allowedUniques: set<V>,
                 toV: string -> V, toStr: V -> string)
      requires allowedUniques == Elems(allowed) && Distinct(allowed)
      requires value == zero || Permitted(allowed, allowedUniques, value)
      ensures Valid()
      ensures this.name == name && this.value == value && this.zero == zero && this.allowed == allowed
      ensures this.allowedUniques == allowedUniques && this.toV == toV && this.toStr == toStr
    {
      this.name := name;
      this.value := value;
      this.zero := zero;
      this.allowed := allowed;
      this.allowedUniques := allowedUniques;
      this.toV := toV;
      this.toStr := toStr;
    }

    /** Set: one occurrence of the flag with text `s`. */
    method Set(s: string) returns (err: Option<FlagError<V>>)
      requires Valid()
      modifies this
      ensures Valid()
      ensures Step(value, err) == SingleStep(allowed, allowedUniques, toStr, old(value), toV(s))
    {
      var v := toV(s);
      err := CheckAllowed(v, allowed, allowedUniques, toStr);
      if err.Some? {
        return;
      }
      value := v;
    }

    /** Value: the stored value (Go returns its address). */
    function Value(): (r: V)
      reads this
      ensures r == value
      ensures Valid() ==> r == zero || Permitted(allowed, allowedUniques, r)
    {
      value
    }

    /** String: the stored value rendered by the converter. */
    function String(): (r: string)
      reads this
      ensures r == toStr(value)
    {
      assert Rendered(toStr, [value]) == [toStr(value)];
      JoinedOne(toStr(value));
      Csv(toStr, [Value()])
    }
  }
}
