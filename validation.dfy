/**
 * The validation helpers of flagenum.go: duplicate detection
 * (populateUniques, getUniques) and allow-list membership (checkAllowed,
 * checkDefault). Go's `map[T]struct{}` sets are `set<V>` here.
 */
module Validation {
  import opened FlagErrors
  import opened Text

  /** No value occurs twice. */
  predicate Distinct<V(==)>(s: seq<V>) {
    forall i, j :: 0 <= i < j < |s| ==> s[i] != s[j]
  }

  /** The set of the elements of `s`. */
  function Elems<V>(s: seq<V>): set<V> {
    set x | x in s
  }

  /** Every element of `s` is in `m`. */
  predicate AllIn<V>(s: seq<V>, m: set<V>) {
    forall i :: 0 <= i < |s| ==> s[i] in m
  }

  /** What checkAllowed accepts: anything when the allow-list is empty, else members of its set. */
  predicate Permitted<V(==)>(allowed: seq<V>, allowedUniques: set<V>, v: V) {
    |allowed| == 0 || v in allowedUniques
  }

  /** The position of the first element equal to an earlier one. */
  function FirstRepeat<V(==)>(s: seq<V>): (j: nat)
    requires !Distinct(s)
    ensures j < |s| && s[j] in s[..j] && Distinct(s[..j])
    decreases |s|
  {
    var init := s[..|s| - 1];
    if Distinct(init) then
      assert exists i :: 0 <= i < |s| - 1 && s[i] == s[|s| - 1];
      |s| - 1
    else
      var j := FirstRepeat(init);
      assert init[..j] == s[..j];
      j
  }

  /** The first repeat is the only position that repeats an element of a repeat-free prefix. */
  lemma FirstRepeatUnique<V>(s: seq<V>, j: nat)
    requires j < |s| && s[j] in s[..j] && Distinct(s[..j])
    ensures !Distinct(s) && FirstRepeat(s) == j
  {
  }

  /** The position of the first element of `s` outside `m`. */
  function FirstOutside<V>(s: seq<V>, m: set<V>): (k: nat)
    requires !AllIn(s, m)
    ensures k < |s| && s[k] !in m && AllIn(s[..k], m)
    decreases |s|
  {
    if s[0] !in m then 0
    else
      assert forall i :: 1 <= i < |s| ==> s[i] == s[1..][i - 1];
      1 + FirstOutside(s[1..], m)
  }

  /** The first element outside `m` is the only one preceded by elements all in `m`. */
  lemma FirstOutsideUnique<V>(s: seq<V>, m: set<V>, k: nat)
    requires k < |s| && s[k] !in m && AllIn(s[..k], m)
    ensures !AllIn(s, m) && FirstOutside(s, m) == k
  {
  }

  /**
   * populateUniques: record `value` in the set of values seen so far, or
   * fail if it is already there. The returned set is the updated map.
   */
  function PopulateUniques<V(==)>(kind: string, value: V, seen: set<V>, name: string): (r: (set<V>, Option<FlagError<V>>))
    ensures r.0 == seen + {value}
    ensures r.1.None? <==> value !in seen
    ensures r.1.Some? ==> r.1.value == Duplicated(kind, value, name)
  {
    if value !in seen then (seen + {value}, None)
    else (seen, Some(Duplicated(kind, value, name)))
  }

  /**
   * getUniques: fill a set from `values` in order, failing on the first
   * value equal to an earlier one. On failure the set built so far is
   * returned with the error.
   */
  method GetUniques<V(==)>(kind: string, name: string, values: seq<V>) returns (uniques: set<V>, err: Option<FlagError<V>>)
    ensures err.None? <==> Distinct(values)
    ensures err.None? ==> uniques == Elems(values)
    ensures !Distinct(values) ==>
      var j := FirstRepeat(values);
      err == Some(Duplicated(kind, values[j], name)) && uniques == Elems(values[..j])
  {
    uniques := {};
    var i := 0;
    while i < |values|
      invariant 0 <= i <= |values|
      invariant Distinct(values[..i])
      invariant uniques == Elems(values[..i])
    {
      var e := values[i];
      var populated := PopulateUniques(kind, e, uniques, name);
      if populated.1.Some? {
        FirstRepeatUnique(values, i);
        return uniques, populated.1;
      }
      assert values[..i + 1] == values[..i] + [e];
      uniques := populated.0;
      i := i + 1;
    }
    assert values[..i] == values;
    return uniques, None;
  }

  /**
   * checkAllowed: an empty allow-list admits everything; otherwise the value
   * must be in the precomputed set, and the error lists the allow-list.
   */
  function CheckAllowed<V(==)>(value: V, allowed: seq<V>, uniques: set<V>, toStr: V -> string): (r: Option<FlagError<V>>)
    ensures r.None? <==> Permitted(allowed, uniques, value)
    ensures uniques == Elems(allowed) ==> (r.None? <==> allowed == [] || value in allowed)
    ensures r.Some? ==> r.value == NotAllowed(Csv(toStr, allowed))
  {
    if |allowed| > 0 && value !in uniques then Some(NotAllowed(Csv(toStr, allowed)))
    else None
  }

  /** checkDefault: checkAllowed, with its error wrapped as an invalid default of flag `name`. */
  function CheckDefault<V(==)>(name: string, defaultValue: V, allowed: seq<V>, uniques: set<V>, toStr: V -> string): (r: Option<FlagError<V>>)
    ensures r.None? <==> Permitted(allowed, uniques, defaultValue)
    ensures r.Some? ==> r.value == UnexpectedDefault(defaultValue, name, NotAllowed(Csv(toStr, allowed)))
  {
    match CheckAllowed(defaultValue, allowed, uniques, toStr)
    case Some(e) => Some(UnexpectedDefault(defaultValue, name, e))
    case None => None
  }
}
