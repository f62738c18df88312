/**
 * Text composition of flagenum.go: the comma-joined rendering of values
 * (joinToString) and the usage suffix that lists the allow-list (getSuffix).
 */
module Text {

  /** Each value rendered by the caller's converter, in order. */
  function Rendered<T>(toStr: T -> string, vs: seq<T>): (rs: seq<string>)
    ensures |rs| == |vs|
    ensures forall i :: 0 <= i < |vs| ==> rs[i] == toStr(vs[i])
  {
    seq(|vs|, i requires 0 <= i < |vs| => toStr(vs[i]))
  }

  /**
   * What joinToString builds from the renderings: each one appended in
   * order, preceded by "," only when the text built so far is non-empty.
   */
  function Joined(rs: seq<string>): string
    decreases |rs|
  {
    if rs == [] then ""
    else
      var done := Joined(rs[..|rs| - 1]);
      (if |done| > 0 then done + "," else done) + rs[|rs| - 1]
  }

  /** The comma-joined rendering of `vs`, as joinToString returns it. */
  function Csv<T>(toStr: T -> string, vs: seq<T>): string {
    Joined(Rendered(toStr, vs))
  }

  /** joinToString: a string builder filled in one loop over the values. */
  method JoinToString<T>(toStr: T -> string, values: seq<T>) returns (s: string)
    ensures s == Csv(toStr, values)
  {
    s := "";
    for i := 0 to |values|
      invariant s == Joined(Rendered(toStr, values[..i]))
    {
      if |s| > 0 {
        s := s + ",";
      }
      s := s + toStr(values[i]);
      assert Rendered(toStr, values[..i + 1])[..i] == Rendered(toStr, values[..i]);
    }
    assert values[..|values|] == values;
  }

  /** A single rendering is joined without any comma. */
  lemma JoinedOne(r: string)
    ensures Joined([r]) == r
  {
  }

  /** Reference: the usual comma join, a separator between every two neighbours. */
  function CommaJoin(rs: seq<string>): string
    decreases |rs|
  {
    if |rs| == 0 then ""
    else if |rs| == 1 then rs[0]
    else CommaJoin(rs[..|rs| - 1]) + "," + rs[|rs| - 1]
  }

  /** Reference: a text cut at every comma. */
  function Split(s: string): (parts: seq<string>)
    ensures |parts| > 0
    decreases |s|
  {
    if s == [] then [""]
    else
      var rest := Split(s[1..]);
      if s[0] == ',' then [""] + rest else [[s[0]] + rest[0]] + rest[1..]
  }

  /** When no rendering is empty, joinToString is the usual comma join. */
  lemma {:induction false} JoinedIsCommaJoin(rs: seq<string>)
    requires forall i :: 0 <= i < |rs| ==> rs[i] != ""
    ensures Joined(rs) == CommaJoin(rs)
    ensures |rs| > 0 ==> Joined(rs) != ""
    decreases |rs|
  {
    if |rs| > 0 {
      JoinedIsCommaJoin(rs[..|rs| - 1]);
    }
  }

  lemma {:induction false} SplitWithoutComma(a: string)
    requires ',' !in a
    ensures Split(a) == [a]
    decreases |a|
  {
    if a != [] {
      assert forall k :: 0 <= k < |a| - 1 ==> a[1..][k] == a[k + 1];
      SplitWithoutComma(a[1..]);
      assert [a[0]] + a[1..] == a;
    }
  }

  /** One step of Split: the first character either starts a new part or joins the first part. */
  lemma SplitUnfold(s: string)
    requires s != []
    ensures var rest := Split(s[1..]);
      Split(s) == if s[0] == ',' then [""] + rest else [[s[0]] + rest[0]] + rest[1..]
  {
  }

  /** Cutting at the commas of `x + "," + y` cuts `x` and `y` apart. */
  lemma {:induction false} SplitAtComma(x: string, y: string)
    ensures Split(x + "," + y) == Split(x) + Split(y)
    decreases |x|
  {
    var s := x + "," + y;
    SplitUnfold(s);
    if x == [] {
      assert s[0] == ',' && s[1..] == y;
    } else {
      var t := x[1..];
      assert s[0] == x[0] && s[1..] == t + "," + y;
      SplitAtComma(t, y);
      SplitUnfold(x);
      if x[0] != ',' {
        var st, sy := Split(t), Split(y);
        assert (st + sy)[0] == st[0] && (st + sy)[1..] == st[1..] + sy;
      }
    }
  }

  lemma {:induction false} SplitCommaJoin(rs: seq<string>)
    requires |rs| > 0
    requires forall i :: 0 <= i < |rs| ==> ',' !in rs[i]
    ensures Split(CommaJoin(rs)) == rs
    decreases |rs|
  {
    var last := rs[|rs| - 1];
    SplitWithoutComma(last);
    if |rs| > 1 {
      var init := rs[..|rs| - 1];
      SplitCommaJoin(init);
      SplitAtComma(CommaJoin(init), last);
      assert init + [last] == rs;
    }
  }

  /**
   * Round trip: when every rendering is non-empty and comma-free, cutting
   * joinToString's text at its commas gives the renderings back, in order.
   */
  lemma JoinedRoundTrip(rs: seq<string>)
    requires |rs| > 0
    requires forall i :: 0 <= i < |rs| ==> rs[i] != "" && ',' !in rs[i]
    ensures Split(Joined(rs)) == rs
  {
    JoinedIsCommaJoin(rs);
    SplitCommaJoin(rs);
  }

  /**
   * As written, joinToString tests the builder's length rather than the
   * position: a leading empty rendering leaves neither text nor a comma.
   */
  lemma {:induction false} LeadingEmptyRenderingDropped(rs: seq<string>)
    ensures Joined([""] + rs) == Joined(rs)
    decreases |rs|
  {
    if rs != [] {
      var init := rs[..|rs| - 1];
      LeadingEmptyRenderingDropped(init);
      assert ([""] + rs)[..|rs|] == [""] + init;
    }
  }

  /**
   * getSuffix: the text appended to the usage string. It names the
   * allow-list when there is one, and starts with a space exactly when the
   * usage is non-empty (so an empty allow-list still yields " ").
   */
  function GetSuffix<T>(usage: string, countStr: string, toStr: T -> string, allowed: seq<T>): (suffix: string)
    ensures (|suffix| > 0 && suffix[0] == ' ') <==> |usage| > 0
    ensures suffix == "" <==> usage == "" && allowed == []
    ensures allowed == [] ==> |suffix| <= 1
    ensures allowed != [] ==> suffix[|suffix| - 1] == ')'
  {
    var listed := if |allowed| > 0 then "(allowed " + countStr + " " + Csv(toStr, allowed) + ")" else "";
    if |usage| > 0 then " " + listed else listed
  }

  /**
   * With a non-empty allow-list whose renderings are non-empty and
   * comma-free, the suffix is "(allowed <count> <csv>)" (after one space for
   * a non-empty usage) and the csv lists exactly the allowed values, in order.
   */
  lemma SuffixListsAllowed<T>(usage: string, countStr: string, toStr: T -> string, allowed: seq<T>)
    requires |allowed| > 0
    requires forall i :: 0 <= i < |allowed| ==> toStr(allowed[i]) != "" && ',' !in toStr(allowed[i])
    ensures var head := (if |usage| > 0 then " " else "") + "(allowed " + countStr + " ";
      var suffix := GetSuffix(usage, countStr, toStr, allowed);
      |head| < |suffix| && head <= suffix && suffix[|suffix| - 1] == ')' &&
      Split(suffix[|head|..|suffix| - 1]) == Rendered(toStr, allowed)
  {
    var head := (if |usage| > 0 then " " else "") + "(allowed " + countStr + " ";
    var csv := Csv(toStr, allowed);
    SuffixShape(usage, countStr, toStr, allowed);
    MiddleOf(head, csv, ")");
    JoinedRoundTrip(Rendered(toStr, allowed));
  }

  /** A suffix that lists the allow-list is the head, the comma-joined list and ")". */
  lemma SuffixShape<T>(usage: string, countStr: string, toStr: T -> string, allowed: seq<T>)
    requires |allowed| > 0
    ensures GetSuffix(usage, countStr, toStr, allowed) ==
      (if |usage| > 0 then " " else "") + "(allowed " + countStr + " " + Csv(toStr, allowed) + ")"
  {
  }

  /** The middle part of a three-part text is recovered by slicing. */
  lemma MiddleOf(head: string, mid: string, tail: string)
    ensures |head| + |mid| == |head + mid + tail| - |tail|
    ensures (head + mid + tail)[|head|..|head + mid + tail| - |tail|] == mid
  {
  }
}
