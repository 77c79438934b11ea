/** Rule conditions, as the parser builds them and the engine evaluates them. */
module Conditions {

  /** `Provider` stands for a condition evaluated by a provider; `Single` for a rule with one entry. */
  datatype Conditional =
    | Provider(id: nat)
    | And(conditions: seq<Entry>)
    | Or(conditions: seq<Entry>)
    | Single(entry: Entry)

  /** `alias` is the `as` field; the empty string means that a field is not given. */
  datatype Entry = Entry(from: string, alias: string, ignorable: bool, negated: bool, cond: Conditional)

  /** No two entries of a list have the same `as`. */
  ghost predicate UniqueAliases(entries: seq<Entry>) {
    forall i, j :: 0 <= i < j < |entries| && entries[i].alias != "" ==> entries[i].alias != entries[j].alias
  }
}
