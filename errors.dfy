/** The errors the enumerated-flag engine reports, and the texts they print. */
module FlagErrors {

  datatype Option<T> = None | Some(value: T)

  /** One constructor per fmt.Errorf of flagenum.go, carrying the operands its message prints. */
  datatype FlagError<V> =
      /** A value seen twice; `kind` is "allowed", "default" or "" for command-line input. */
    | Duplicated(kind: string, value: V, name: string)
      /** A value outside a non-empty allow-list; `allowedCsv` is the joined allow-list. */
    | NotAllowed(allowedCsv: string)
      /** A default rejected by the allow-list check, wrapping that check's error. */
    | UnexpectedDefault(value: V, name: string, cause: FlagError<V>)

  predicate IsSuffix(s: string, t: string) {
    |s| <= |t| && t[|t| - |s|..] == s
  }

  /**
   * The text of an error. `show` renders a value as Go's `%v` verb does
   * (for string flags, the string itself).
   */
  function Message<V>(e: FlagError<V>, show: V -> string): (m: string)
    ensures e.Duplicated? ==> "duplicated " <= m
    ensures e.Duplicated? && e.kind == "" ==> "duplicated value " <= m
    ensures e.NotAllowed? ==> "must be one of " <= m && IsSuffix(e.allowedCsv, m)
    ensures e.UnexpectedDefault? ==> "unexpected default value " <= m && IsSuffix(Message(e.cause, show), m)
  {
    match e
    case Duplicated(kind, v, name) =>
      "duplicated " + (if |kind| > 0 then kind + " " else "") + "value \"" + show(v) + "\" for flag -" + name
    case NotAllowed(csv) =>
      "must be one of " + csv
    case UnexpectedDefault(v, name, cause) =>
      "unexpected default value \"" + show(v) + "\" for flag -" + name + ": " + Message(cause, show)
  }

  /**
   * A duplicate message with a kind word is the plain one with that word and
   * one space inserted after "duplicated ": the runtime check (kind "")
   * prints no double space.
   */
  lemma DuplicatedKindInserted<V>(kind: string, v: V, name: string, show: V -> string)
    requires kind != ""
    ensures var plain := Message(Duplicated("", v, name), show);
      Message(Duplicated(kind, v, name), show) == "duplicated " + kind + " " + plain[|"duplicated "|..]
  {
  }
}
