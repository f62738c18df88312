/**
 * The registration functions of flagenum.go, Multiple and Single: validate
 * the allow-list and the defaults once, then build the holder that the flag
 * set binds to the flag's name with the composed usage text. The binding
 * itself (flag.FlagSet.Var) belongs to the host library; here the holder and
 * the usage text it would be bound with are returned.
 */
module Registration {
  import opened FlagErrors
  import opened Text
  import opened Validation
  import opened Holders

  /**
   * Multiple: fails, in this order, on a repeated allowed value, on a
   * repeated default, and on the first default outside a non-empty
   * allow-list; otherwise returns a fresh holder whose values are the
   * defaults, and the usage text "<usage> (allowed any of <csv>)".
   */
  method Multiple<V(==)>(name: string, defaults: seq<V>, allowed: seq<V>,
                         toV: string -> V, toStr: V -> string, usage: string)
    returns (holder: MultipleValues?<V>, usageText: string, err: Option<FlagError<V>>)
    ensures err.None? <==> holder != null
    ensures err.None? <==> Distinct(allowed) && Distinct(defaults) && (allowed == [] || AllIn(defaults, Elems(allowed)))
    ensures !Distinct(allowed) ==>
      err == Some(Duplicated("allowed", allowed[FirstRepeat(allowed)], name))
    ensures Distinct(allowed) && !Distinct(defaults) ==>
      err == Some(Duplicated("default", defaults[FirstRepeat(defaults)], name))
    ensures Distinct(allowed) && Distinct(defaults) && allowed != [] && !AllIn(defaults, Elems(allowed)) ==>
      var bad := defaults[FirstOutside(defaults, Elems(allowed))];
      err == Some(UnexpectedDefault(bad, name, NotAllowed(Csv(toStr, allowed))))
    ensures holder != null ==>
      fresh(holder) && holder.Valid() &&
      holder.name == name && holder.defaults == defaults && holder.allowed == allowed &&
      holder.toV == toV && holder.toStr == toStr &&
      holder.values == defaults && holder.uniques == {} && !holder.defaultCleared &&
      usageText == usage + GetSuffix(usage, "any of", toStr, allowed)
  {
    holder, usageText := null, "";
    var allowedUniques, allowedErr := GetUniques("allowed", name, allowed);
    if allowedErr.Some? {
      return holder, usageText, allowedErr;
    }
    var _, defaultErr := GetUniques("default", name, defaults);
    if defaultErr.Some? {
      return holder, usageText, defaultErr;
    }
    if |allowed| > 0 {
      for i := 0 to |defaults|
        invariant AllIn(defaults[..i], allowedUniques)
      {
        err := CheckDefault(name, defaults[i], allowed, allowedUniques, toStr);
        if err.Some? {
          FirstOutsideUnique(defaults, allowedUniques, i);
          return;
        }
        assert forall k :: 0 <= k < i ==> defaults[..i + 1][k] == defaults[..i][k];
      }
      assert defaults[..|defaults|] == defaults;
    }
    holder := new MultipleValues(name, defaults, allowed, allowedUniques, toV, toStr);
    usageText := usage + GetSuffix(usage, "any of", toStr, allowed);
    err := None;
  }

  /**
   * Single: fails on a repeated allowed value, then on a default that is not
   * V's zero value and lies outside a non-empty allow-list; otherwise
   * returns a fresh holder storing the default, and the usage text
   * "<usage> (allowed one of <csv>)". `zero` is Go's zero value of V.
   */
  method Single<V(==)>(name: string, value: V, zero: V, allowed: seq<V>,
                       toV: string -> V, toStr: V -> string, usage: string)
    returns (holder: SingleValue?<V>, usageText: string, err: Option<FlagError<V>>)
    ensures err.None? <==> holder != null
    ensures err.None? <==> Distinct(allowed) && (value == zero || allowed == [] || value in allowed)
    ensures !Distinct(allowed) ==>
      err == Some(Duplicated("allowed", allowed[FirstRepeat(allowed)], name))
    ensures Distinct(allowed) && value != zero && allowed != [] && value !in allowed ==>
      err == Some(UnexpectedDefault(value, name, NotAllowed(Csv(toStr, allowed))))
    ensures holder != null ==>
      fresh(holder) && holder.Valid() &&
      holder.name == name && holder.value == value && holder.zero == zero && holder.allowed == allowed &&
      holder.toV == toV && holder.toStr == toStr &&
      usageText == usage + GetSuffix(usage, "one of", toStr, allowed)
  {
    holder, usageText := null, "";
    var allowedUniques, allowedErr := GetUniques("allowed", name, allowed);
    if allowedErr.Some? {
      return holder, usageText, allowedErr;
    }
    if zero != value {
      err := CheckDefault(name, value, allowed, allowedUniques, toStr);
      if err.Some? {
        return;
      }
    }
    holder := new SingleValue(name, value, zero, allowed, allowedUniques, toV, toStr);
    usageText := usage + GetSuffix(usage, "one of", toStr, allowed);
    err := None;
  }
}
