/**
 `getConditions`: from the generic form of a rule's and/or list to condition entries,
 with the entries spliced into a list as they are built.
 */
module RuleParser {
  import opened Wrappers
  import opened Conditions
  import opened ConditionChains
  import opened Strings
  import Evaluation = ConditionEvaluation

  // ----- the input -----

  datatype RawString = NoString | GivenString(text: string) | NotAString

  datatype RawBool = NoBool | GivenBool(flag: bool) | NotABool

  datatype Key = TextKey(text: string) | OtherKey

  datatype Value = ListValue(items: seq<Item>) | OtherValue(id: nat)

  datatype Pair = Pair(key: Key, value: Value)

  /** `body` holds the other keys of the map, in the order in which the map is iterated. */
  datatype Item =
    | NotAMap
    | ItemMap(from: RawString, alias: RawString, ignorable: RawBool, negated: RawBool, body: seq<Pair>)

  datatype ParseError =
    | NotAnObject | BadFrom | BadAlias | BadIgnore | BadNot | BadKey | NotAnArray | EmptyKey
    | BadProviderKey | ProviderFailed | FromIsAlias | DuplicateAlias

  /** What `getConditionForProvider` finds for a provider, a capability and a value. */
  datatype Found = Missing | Failed | Skipped | Condition(id: nat)

  type Resolver = (string, string, Value) -> Found

  datatype Fields = Fields(from: string, alias: string, ignorable: bool, negated: bool)

  // ----- splicing -----

  /**
   `index` is `chainNameToIndex` and `aliases` is `asFound`; `consumerAt` is not in the code:
   it follows the entry behind each recorded index to the position where it really is.
   */
  datatype Spliced = Spliced(
    conditions: seq<Entry>,
    index: map<string, nat>,
    aliases: seq<string>,
    consumerAt: map<string, nat>)

  const Empty := Spliced([], map[], [], map[])

  function Shifted(at: map<string, nat>, from: nat): map<string, nat> {
    map name | name in at :: if at[name] >= from then at[name] + 1 else at[name]
  }

  predicate InBounds(s: Spliced) {
    forall name <- s.index :: s.index[name] < |s.conditions|
  }

  /** A recorded index that is out of bounds would be a panic. */
  function Splice(s: Spliced, ce: Entry): Result<Spliced, ParseError>
    requires InBounds(s)
  {
    if ce.from != "" && ce.alias != "" && ce.from == ce.alias then
      Failure(FromIsAlias)
    else if ce.alias != "" then
      if ce.alias in s.aliases then Failure(DuplicateAlias)
      else Success(Inserted(s, if ce.alias in s.index then s.index[ce.alias] else 0, ce))
    else
      Success(Appended(s, ce))
  }

  function Inserted(s: Spliced, i: nat, ce: Entry): Spliced
    requires i <= |s.conditions|
  {
    Spliced(s.conditions[..i] + [ce] + s.conditions[i..], s.index, s.aliases + [ce.alias], Shifted(s.consumerAt, i))
  }

  function Appended(s: Spliced, ce: Entry): Spliced {
    var at := if ce.from != "" then map[ce.from := |s.conditions|] else map[];
    Spliced(s.conditions + [ce], s.index + at, s.aliases, s.consumerAt + at)
  }

  // ----- what every splice keeps -----

  predicate IsConsumer(e: Entry) {
    e.from != "" && e.alias == ""
  }

  /** A recorded index may be stale but is in bounds and at or before its consumer. */
  ghost predicate IndexOk(s: Spliced) {
    && s.index.Keys == s.consumerAt.Keys
    && forall name <- s.index :: s.index[name] <= s.consumerAt[name] < |s.conditions|
  }

  /** The consumer of a recorded name takes that name and stores nothing ... */
  ghost predicate ConsumersRecorded(s: Spliced) {
    forall name <- s.consumerAt ::
      && s.consumerAt[name] < |s.conditions|
      && IsConsumer(s.conditions[s.consumerAt[name]])
      && s.conditions[s.consumerAt[name]].from == name
  }

  /** ... and is the last of the list that does. */
  ghost predicate LastRecorded(s: Spliced) {
    forall k :: 0 <= k < |s.conditions| && IsConsumer(s.conditions[k]) ==>
      s.conditions[k].from in s.consumerAt && k <= s.consumerAt[s.conditions[k].from]
  }

  ghost predicate AliasesOk(s: Spliced) {
    && UniqueAliases(s.conditions)
    && forall k :: 0 <= k < |s.conditions| && s.conditions[k].alias != "" ==> s.conditions[k].alias in s.aliases
  }

  ghost predicate ProducersOk(s: Spliced) {
    forall k :: 0 <= k < |s.conditions| && s.conditions[k].alias in s.consumerAt ==>
      k < s.consumerAt[s.conditions[k].alias]
  }

  ghost predicate NoSelfLinks(entries: seq<Entry>) {
    forall e <- entries :: e.alias != "" ==> e.from != e.alias
  }

  ghost predicate SplicedOk(s: Spliced) {
    && IndexOk(s)
    && ConsumersRecorded(s)
    && LastRecorded(s)
    && AliasesOk(s)
    && ProducersOk(s)
    && NoSelfLinks(s.conditions)
  }

  lemma InsertedAt(s: Spliced, i: nat, ce: Entry, k: nat)
    requires i <= |s.conditions| && k <= |s.conditions|
    ensures Inserted(s, i, ce).conditions[k] ==
              if k < i then s.conditions[k] else if k == i then ce else s.conditions[k - 1]
  {
  }

  lemma InsertedConsumers(s: Spliced, i: nat, ce: Entry)
    requires i <= |s.conditions| && ConsumersRecorded(s)
    ensures ConsumersRecorded(Inserted(s, i, ce))
  {
    var t := Inserted(s, i, ce);
    forall name | name in t.consumerAt
      ensures t.consumerAt[name] < |t.conditions|
      ensures t.conditions[t.consumerAt[name]] == s.conditions[s.consumerAt[name]]
    {
      InsertedAt(s, i, ce, t.consumerAt[name]);
    }
  }

  lemma InsertedLast(s: Spliced, i: nat, ce: Entry)
    requires i <= |s.conditions| && ce.alias != "" && LastRecorded(s)
    ensures LastRecorded(Inserted(s, i, ce))
  {
    var t := Inserted(s, i, ce);
    forall k | 0 <= k < |t.conditions| && IsConsumer(t.conditions[k])
      ensures t.conditions[k].from in t.consumerAt && k <= t.consumerAt[t.conditions[k].from]
    {
      InsertedAt(s, i, ce, k);
    }
  }

  lemma InsertedAliases(s: Spliced, i: nat, ce: Entry)
    requires i <= |s.conditions| && ce.alias !in s.aliases && AliasesOk(s)
    ensures AliasesOk(Inserted(s, i, ce))
  {
    var t := Inserted(s, i, ce);
    forall j, k | 0 <= j < k < |t.conditions| && t.conditions[j].alias != ""
      ensures t.conditions[j].alias != t.conditions[k].alias
    {
      InsertedAt(s, i, ce, j);
      InsertedAt(s, i, ce, k);
    }
    forall k | 0 <= k < |t.conditions| && t.conditions[k].alias != ""
      ensures t.conditions[k].alias in t.aliases
    {
      InsertedAt(s, i, ce, k);
    }
  }

  lemma InsertedProducers(s: Spliced, i: nat, ce: Entry)
    requires i <= |s.conditions| && ProducersOk(s) && (ce.alias in s.consumerAt ==> i <= s.consumerAt[ce.alias])
    ensures ProducersOk(Inserted(s, i, ce))
  {
    var t := Inserted(s, i, ce);
    forall k | 0 <= k < |t.conditions| && t.conditions[k].alias in t.consumerAt
      ensures k < t.consumerAt[t.conditions[k].alias]
    {
      InsertedAt(s, i, ce, k);
    }
  }

  lemma InsertedKeeps(s: Spliced, i: nat, ce: Entry)
    requires SplicedOk(s) && i <= |s.conditions| && (ce.alias in s.consumerAt ==> i <= s.consumerAt[ce.alias])
    requires ce.alias != "" && ce.alias !in s.aliases && ce.from != ce.alias
    ensures SplicedOk(Inserted(s, i, ce))
    ensures multiset(Inserted(s, i, ce).conditions) == multiset(s.conditions) + multiset{ce}
  {
    InsertedConsumers(s, i, ce);
    InsertedLast(s, i, ce);
    InsertedAliases(s, i, ce);
    InsertedProducers(s, i, ce);
    assert IndexOk(Inserted(s, i, ce));
    assert s.conditions == s.conditions[..i] + s.conditions[i..];
  }

  lemma AppendedConsumers(s: Spliced, ce: Entry)
    requires ce.alias == "" && ConsumersRecorded(s)
    ensures ConsumersRecorded(Appended(s, ce))
  {
    var t := Appended(s, ce);
    forall name | name in t.consumerAt
      ensures
        var k := t.consumerAt[name];
        k < |t.conditions| && IsConsumer(t.conditions[k]) && t.conditions[k].from == name
    {
      if name == ce.from && ce.from != "" {
        assert t.consumerAt[name] == |s.conditions|;
      } else {
        assert name in s.consumerAt && t.consumerAt[name] == s.consumerAt[name];
      }
    }
  }

  lemma AppendedLast(s: Spliced, ce: Entry)
    requires LastRecorded(s) && ConsumersRecorded(s)
    ensures LastRecorded(Appended(s, ce))
  {
    var t := Appended(s, ce);
    forall k | 0 <= k < |t.conditions| && IsConsumer(t.conditions[k])
      ensures t.conditions[k].from in t.consumerAt && k <= t.consumerAt[t.conditions[k].from]
    {
      if k < |s.conditions| {
        assert t.conditions[k] == s.conditions[k];
      }
    }
  }

  lemma AppendedAliases(s: Spliced, ce: Entry)
    requires ce.alias == "" && AliasesOk(s) && ProducersOk(s) && ConsumersRecorded(s)
    ensures AliasesOk(Appended(s, ce)) && ProducersOk(Appended(s, ce))
  {
    var t := Appended(s, ce);
    assert "" !in t.consumerAt;
    forall k | 0 <= k < |t.conditions|
      ensures t.conditions[k] == if k < |s.conditions| then s.conditions[k] else ce
    {
    }
  }

  lemma AppendedKeeps(s: Spliced, ce: Entry)
    requires SplicedOk(s) && ce.alias == ""
    ensures SplicedOk(Appended(s, ce))
  {
    AppendedConsumers(s, ce);
    AppendedLast(s, ce);
    AppendedAliases(s, ce);
  }

  /** What every splice keeps; in particular no recorded index is ever out of bounds. */
  lemma SpliceKeeps(s: Spliced, ce: Entry)
    requires SplicedOk(s) && Splice(s, ce).Success?
    ensures SplicedOk(Splice(s, ce).value)
    ensures multiset(Splice(s, ce).value.conditions) == multiset(s.conditions) + multiset{ce}
  {
    if ce.alias != "" {
      InsertedKeeps(s, if ce.alias in s.index then s.index[ce.alias] else 0, ce);
    } else {
      AppendedKeeps(s, ce);
    }
  }

  // ----- reading the maps -----

  function ReadFields(item: Item): Result<Fields, ParseError>
    requires item.ItemMap?
  {
    if item.from.NotAString? then Failure(BadFrom)
    else if item.alias.NotAString? then Failure(BadAlias)
    else if item.ignorable.NotABool? then Failure(BadIgnore)
    else if item.negated.NotABool? then Failure(BadNot)
    else Success(Fields(
      if item.from.GivenString? then item.from.text else "",
      if item.alias.GivenString? then item.alias.text else "",
      item.ignorable.GivenBool? && item.ignorable.flag,
      item.negated.GivenBool? && item.negated.flag))
  }

  function MakeEntry(f: Fields, cond: Conditional): Entry {
    Entry(f.from, f.alias, f.ignorable, f.negated, cond)
  }

  /** The entry that one key of a condition builds, or none when it is skipped. */
  ghost function EntryFor(resolve: Resolver, f: Fields, pair: Pair): Result<Option<Entry>, ParseError>
    decreases pair, 1
  {
    if pair.key.OtherKey? then Failure(BadKey)
    else if pair.key.text == "and" || pair.key.text == "or" then
      if pair.value.OtherValue? then Failure(NotAnArray)
      else
        var items := pair.value.items;
        match ParseItems(resolve, items, Empty)
        case Failure(e) => Failure(e)
        case Success(t) =>
          if pair.key.text == "and" then
            Success(if |t.conditions| != |items| then None else Some(MakeEntry(f, And(t.conditions))))
          else
            Success(if t.conditions == [] then None else Some(MakeEntry(f, Or(t.conditions))))
    else if pair.key.text == "" then Failure(EmptyKey)
    else
      var parts := Split(pair.key.text, '.');
      if |parts| != 2 then Failure(BadProviderKey)
      else
        match resolve(parts[0], parts[1], pair.value)
        case Missing => Success(None)
        case Skipped => Success(None)
        case Failed => Failure(ProviderFailed)
        case Condition(id) => Success(Some(MakeEntry(f, Provider(id))))
  }

  ghost function ParsePair(resolve: Resolver, f: Fields, pair: Pair, s: Spliced): (r: Result<Spliced, ParseError>)
    requires SplicedOk(s)
    ensures r.Success? ==> SplicedOk(r.value)
    decreases pair, 2
  {
    match EntryFor(resolve, f, pair)
    case Failure(e) => Failure(e)
    case Success(None) => Success(s)
    case Success(Some(ce)) =>
      if Splice(s, ce).Success? then
        SpliceKeeps(s, ce);
        Splice(s, ce)
      else Splice(s, ce)
  }

  ghost function ParseBody(resolve: Resolver, f: Fields, body: seq<Pair>, s: Spliced): (r: Result<Spliced, ParseError>)
    requires SplicedOk(s)
    ensures r.Success? ==> SplicedOk(r.value)
    decreases body
  {
    if body == [] then Success(s)
    else
      match ParsePair(resolve, f, body[0], s)
      case Failure(e) => Failure(e)
      case Success(t) => ParseBody(resolve, f, body[1..], t)
  }

  ghost function ParseItem(resolve: Resolver, item: Item, s: Spliced): (r: Result<Spliced, ParseError>)
    requires SplicedOk(s)
    ensures r.Success? ==> SplicedOk(r.value)
    decreases item
  {
    if item.NotAMap? then Failure(NotAnObject)
    else
      match ReadFields(item)
      case Failure(e) => Failure(e)
      case Success(f) => ParseBody(resolve, f, item.body, s)
  }

  /** The conditions of a list from `items` on, when `s` has been built so far. */
  ghost function ParseItems(resolve: Resolver, items: seq<Item>, s: Spliced): (r: Result<Spliced, ParseError>)
    requires SplicedOk(s)
    ensures r.Success? ==> SplicedOk(r.value)
    decreases items
  {
    if items == [] then Success(s)
    else
      match ParseItem(resolve, items[0], s)
      case Failure(e) => Failure(e)
      case Success(t) => ParseItems(resolve, items[1..], t)
  }

  ghost function Parse(resolve: Resolver, items: seq<Item>): (r: Result<Spliced, ParseError>)
    ensures r.Success? ==> SplicedOk(r.value)
  {
    ParseItems(resolve, items, Empty)
  }

  // ----- what the parser promises -----

  /** The entries that are built, in the order in which they are built. */
  ghost function BuiltBody(resolve: Resolver, f: Fields, body: seq<Pair>): seq<Entry> {
    if body == [] then []
    else
      (match EntryFor(resolve, f, body[0])
       case Success(Some(ce)) => [ce]
       case _ => []) + BuiltBody(resolve, f, body[1..])
  }

  ghost function Built(resolve: Resolver, items: seq<Item>): seq<Entry> {
    if items == [] then []
    else
      (if items[0].ItemMap? && ReadFields(items[0]).Success? then
         BuiltBody(resolve, ReadFields(items[0]).value, items[0].body)
       else []) + Built(resolve, items[1..])
  }

  lemma {:induction false} BodyConserves(resolve: Resolver, f: Fields, body: seq<Pair>, s: Spliced)
    requires SplicedOk(s) && ParseBody(resolve, f, body, s).Success?
    ensures multiset(ParseBody(resolve, f, body, s).value.conditions) ==
      multiset(s.conditions) + multiset(BuiltBody(resolve, f, body))
    decreases |body|
  {
    if body != [] {
      var t := ParsePair(resolve, f, body[0], s).value;
      BodyConserves(resolve, f, body[1..], t);
      match EntryFor(resolve, f, body[0]) {
        case Success(Some(ce)) =>
          SpliceKeeps(s, ce);
        case _ =>
      }
    }
  }

  lemma {:induction false} ItemsConserve(resolve: Resolver, items: seq<Item>, s: Spliced)
    requires SplicedOk(s) && ParseItems(resolve, items, s).Success?
    ensures multiset(ParseItems(resolve, items, s).value.conditions) ==
      multiset(s.conditions) + multiset(Built(resolve, items))
    decreases |items|
  {
    if items != [] {
      var t := ParseItem(resolve, items[0], s).value;
      ItemsConserve(resolve, items[1..], t);
      BodyConserves(resolve, ReadFields(items[0]).value, items[0].body, s);
    }
  }

  /** The list holds exactly the entries that were built: none is lost, doubled or overwritten. */
  lemma ParsedIsWhatWasBuilt(resolve: Resolver, items: seq<Item>)
    requires Parse(resolve, items).Success?
    ensures multiset(Parse(resolve, items).value.conditions) == multiset(Built(resolve, items))
  {
    ItemsConserve(resolve, items, Empty);
  }

  /** No entry of the tree, at any depth, takes its input from itself. */
  ghost predicate FreeOfSelfLinks(c: Conditional) {
    match c
    case Provider(_) => true
    case Single(e) => NoSelfLinks([e]) && FreeOfSelfLinks(e.cond)
    case And(es) => NoSelfLinks(es) && forall e <- es :: FreeOfSelfLinks(e.cond)
    case Or(es) => NoSelfLinks(es) && forall e <- es :: FreeOfSelfLinks(e.cond)
  }

  /** At every depth `as` names are unique and no entry links to itself. */
  ghost predicate WellBuilt(c: Conditional) {
    Evaluation.WellFormed(c) && FreeOfSelfLinks(c)
  }

  ghost predicate AllWellBuilt(entries: seq<Entry>) {
    forall e <- entries :: WellBuilt(e.cond)
  }

  lemma {:induction false} EntryIsWellFormed(resolve: Resolver, f: Fields, pair: Pair)
    ensures EntryFor(resolve, f, pair).Success? && EntryFor(resolve, f, pair).value.Some? ==>
              WellBuilt(EntryFor(resolve, f, pair).value.value.cond)
    decreases pair, 1
  {
    if pair.value.ListValue? {
      ItemsWellFormed(resolve, pair.value.items, Empty);
    }
  }

  lemma {:induction false} BodyWellFormed(resolve: Resolver, f: Fields, body: seq<Pair>, s: Spliced)
    requires SplicedOk(s) && AllWellBuilt(s.conditions) && ParseBody(resolve, f, body, s).Success?
    ensures AllWellBuilt(ParseBody(resolve, f, body, s).value.conditions)
    decreases body
  {
    if body != [] {
      EntryIsWellFormed(resolve, f, body[0]);
      PairWellFormed(resolve, f, body[0], s);
      BodyWellFormed(resolve, f, body[1..], ParsePair(resolve, f, body[0], s).value);
    }
  }

  lemma PairWellFormed(resolve: Resolver, f: Fields, pair: Pair, s: Spliced)
    requires SplicedOk(s) && AllWellBuilt(s.conditions) && ParsePair(resolve, f, pair, s).Success?
    requires
      var built := EntryFor(resolve, f, pair);
      built.Success? && built.value.Some? ==> WellBuilt(built.value.value.cond)
    ensures AllWellBuilt(ParsePair(resolve, f, pair, s).value.conditions)
  {
    match EntryFor(resolve, f, pair) {
      case Success(Some(ce)) =>
        SpliceKeeps(s, ce);
        var t := Splice(s, ce).value;
        forall e | e in t.conditions
          ensures WellBuilt(e.cond)
        {
          assert e in multiset(t.conditions);
        }
      case _ =>
    }
  }

  lemma {:induction false} ItemsWellFormed(resolve: Resolver, items: seq<Item>, s: Spliced)
    requires SplicedOk(s) && AllWellBuilt(s.conditions)
    ensures ParseItems(resolve, items, s).Success? ==> AllWellBuilt(ParseItems(resolve, items, s).value.conditions)
    decreases items
  {
    if items != [] && ParseItem(resolve, items[0], s).Success? {
      BodyWellFormed(resolve, ReadFields(items[0]).value, items[0].body, s);
      ItemsWellFormed(resolve, items[1..], ParseItem(resolve, items[0], s).value);
    }
  }

  /**
   At every depth of the parsed tree aliases are unique, and no entry links to itself:
   this is what the engine relies on to end.
   */
  lemma ParsedIsWellFormed(resolve: Resolver, items: seq<Item>)
    requires Parse(resolve, items).Success?
    ensures
      var entries := Parse(resolve, items).value.conditions;
      WellBuilt(And(entries)) && WellBuilt(Or(entries))
  {
    ItemsWellFormed(resolve, items, Empty);
  }

  /**
   Every recorded index is in bounds and at or before the position of its consumer, which
   is the last consumer of that name; and the producer of a name is before that consumer.
   */
  lemma RecordedIndexIsSafe(resolve: Resolver, items: seq<Item>, name: string)
    requires Parse(resolve, items).Success? && name in Parse(resolve, items).value.index
    ensures
      var t := Parse(resolve, items).value;
      exists k ::
        && t.index[name] <= k < |t.conditions|
        && IsConsumer(t.conditions[k]) && t.conditions[k].from == name
        && (forall j :: k < j < |t.conditions| ==> !(IsConsumer(t.conditions[j]) && t.conditions[j].from == name))
        && (forall j :: 0 <= j < |t.conditions| && t.conditions[j].alias == name ==> j < k)
  {
    var t := Parse(resolve, items).value;
    assert t.index[name] <= t.consumerAt[name];
  }

  /** The entry takes this name and stores nothing. */
  predicate Consumes(e: Entry, name: string) {
    IsConsumer(e) && e.from == name
  }

  /**
   So the producer of a name precedes everything that takes it and stores nothing, when
   only one entry does.
   */
  lemma OnlyConsumerFollowsItsProducer(resolve: Resolver, items: seq<Item>, name: string, i: nat, k: nat)
    requires Parse(resolve, items).Success?
    requires
      var entries := Parse(resolve, items).value.conditions;
      && i < |entries| && k < |entries| && entries[i].alias == name && Consumes(entries[k], name)
      && forall j :: 0 <= j < |entries| && Consumes(entries[j], name) ==> j == k
    ensures i < k
  {
    var t := Parse(resolve, items).value;
    assert t.consumerAt[name] == k by {
      assert Consumes(t.conditions[t.consumerAt[name]], name);
    }
  }

  /** When every link leads back to a start, the engine evaluates exactly what the parser built. */
  lemma EvaluatedIsWhatWasBuilt(resolve: Resolver, items: seq<Item>)
    requires Parse(resolve, items).Success?
    ensures
      var entries := Parse(resolve, items).value.conditions;
      && InRange(Sorted(entries), |entries|)
      && (multiset(Pick(entries, Sorted(entries))) == multiset(Built(resolve, items))
          <==> forall i: nat :: i < |entries| ==> ReachesStart(entries, i))
  {
    ParsedIsWhatWasBuilt(resolve, items);
    SortedIsPermutation(Parse(resolve, items).value.conditions);
  }

  /** So evaluating what was parsed, as an and or as an or, never misses a context value. */
  lemma ParsedNeverMissesContext(resolve: Resolver, items: seq<Item>, env: Evaluation.Env,
      templates: Evaluation.Templates, name: string)
    requires Parse(resolve, items).Success?
    ensures
      var entries := Parse(resolve, items).value.conditions;
      && Evaluation.WellFormed(And(entries)) && Evaluation.WellFormed(Or(entries))
      && Evaluation.Meaning(env, And(entries), templates).0 != Failure(Evaluation.MissingContext(name))
      && Evaluation.Meaning(env, Or(entries), templates).0 != Failure(Evaluation.MissingContext(name))
  {
    ParsedIsWellFormed(resolve, items);
    var entries := Parse(resolve, items).value.conditions;
    Evaluation.ContextIsNeverMissing(env, And(entries), templates, name);
    Evaluation.ContextIsNeverMissing(env, Or(entries), templates, name);
  }

  /**
   With a second consumer the parser's own order does not put the producer before both: it
   is inserted before the last one only, so the engine has to sort.
   */
  lemma ParseOrderIsNotEnough(f: Conditional) returns (s1: Spliced, s2: Spliced, s3: Spliced)
    ensures
      var consumer, producer := Entry("a", "", false, false, f), Entry("", "a", false, false, f);
      && InBounds(s1) && InBounds(s2)
      && Splice(Empty, consumer) == Success(s1)
      && Splice(s1, consumer) == Success(s2)
      && Splice(s2, producer) == Success(s3)
      && s3.conditions == [consumer, producer, consumer]
  {
    var consumer, producer := Entry("a", "", false, false, f), Entry("", "a", false, false, f);
    s1 := Appended(Empty, consumer);
    assert s1.conditions == [consumer] && s1.index["a"] == 0 && s1.index.Keys == {"a"};
    s2 := Appended(s1, consumer);
    assert s2.conditions == [consumer, consumer] && s2.index["a"] == 1 && s2.index.Keys == {"a"};
    s3 := Inserted(s2, 1, producer);
    assert s2.conditions[..1] == [consumer] && s2.conditions[1..] == [consumer];
  }

  // ----- the code -----

  /** What a caller of `getConditions` sees. */
  ghost function Parsed(resolve: Resolver, items: seq<Item>): Result<seq<Entry>, ParseError> {
    match Parse(resolve, items)
    case Success(t) => Success(t.conditions)
    case Failure(e) => Failure(e)
  }

  method ConditionFor(resolve: Resolver, f: Fields, pair: Pair) returns (result: Result<Option<Entry>, ParseError>)
    ensures result == EntryFor(resolve, f, pair)
    decreases pair, 1
  {
    if pair.key.OtherKey? {
      return Failure(BadKey);
    }
    var key := pair.key.text;
    if key == "and" || key == "or" {
      if pair.value.OtherValue? {
        return Failure(NotAnArray);
      }
      var items := pair.value.items;
      var conds := GetConditions(resolve, items);
      if conds.Failure? {
        return Failure(conds.error);
      }
      if key == "and" {
        if |conds.value| != |items| {
          return Success(None);
        }
        return Success(Some(MakeEntry(f, And(conds.value))));
      }
      if |conds.value| == 0 {
        return Success(None);
      }
      return Success(Some(MakeEntry(f, Or(conds.value))));
    }
    if key == "" {
      return Failure(EmptyKey);
    }
    var parts := Split(key, '.');
    if |parts| != 2 {
      return Failure(BadProviderKey);
    }
    var condition := resolve(parts[0], parts[1], pair.value);
    match condition {
      case Missing => return Success(None);
      case Skipped => return Success(None);
      case Failed => return Failure(ProviderFailed);
      case Condition(id) => return Success(Some(MakeEntry(f, Provider(id))));
    }
  }

  /** The end of the loop body of `getConditions`: the entry goes into the list. */
  method SpliceEntry(conditions: seq<Entry>, index: map<string, nat>, aliases: seq<string>,
      ghost consumerAt: map<string, nat>, ce: Entry)
    returns (error: Option<ParseError>, conditions': seq<Entry>, index': map<string, nat>, aliases': seq<string>,
             ghost consumerAt': map<string, nat>)
    requires SplicedOk(Spliced(conditions, index, aliases, consumerAt))
    ensures
      match Splice(Spliced(conditions, index, aliases, consumerAt), ce)
      case Failure(e) => error == Some(e)
      case Success(t) => error.None? && t == Spliced(conditions', index', aliases', consumerAt') && SplicedOk(t)
  {
    error, conditions', index', aliases', consumerAt' := None, conditions, index, aliases, consumerAt;
    if ce.from != "" && ce.alias != "" && ce.from == ce.alias {
      error := Some(FromIsAlias);
      return;
    } else if ce.alias != "" {
      if ce.alias in aliases {
        error := Some(DuplicateAlias);
        return;
      }
      aliases' := aliases + [ce.alias];
      if ce.alias !in index {
        conditions' := [ce] + conditions;
        consumerAt' := Shifted(consumerAt, 0);
        assert conditions[..0] + [ce] + conditions[0..] == conditions';
      } else {
        var i := index[ce.alias];
        conditions' := conditions[..i + 1] + conditions[i..];
        conditions' := conditions'[i := ce];
        consumerAt' := Shifted(consumerAt, i);
        assert conditions[..i] + [ce] + conditions[i..] == conditions';
      }
    } else if ce.from != "" {
      index' := index[ce.from := |conditions|];
      consumerAt' := consumerAt[ce.from := |conditions|];
      conditions' := conditions + [ce];
      assert index' == index + map[ce.from := |conditions|];
      assert consumerAt' == consumerAt + map[ce.from := |conditions|];
    } else {
      conditions' := conditions + [ce];
      assert index == index + map[] && consumerAt == consumerAt + map[];
    }
    SpliceKeeps(Spliced(conditions, index, aliases, consumerAt), ce);
  }

  /** `getConditions` */
  method GetConditions(resolve: Resolver, items: seq<Item>) returns (result: Result<seq<Entry>, ParseError>)
    ensures result == Parsed(resolve, items)
    decreases items
  {
    var conditions: seq<Entry>, index: map<string, nat>, aliases: seq<string> := [], map[], [];
    ghost var consumerAt: map<string, nat> := map[];
    for k := 0 to |items|
      invariant SplicedOk(Spliced(conditions, index, aliases, consumerAt))
      invariant Parse(resolve, items) ==
        ParseItems(resolve, items[k..], Spliced(conditions, index, aliases, consumerAt))
    {
      assert items[k..][0] == items[k] && items[k..][1..] == items[k + 1..];
      if items[k].NotAMap? {
        return Failure(NotAnObject);
      }
      var fields := ReadFields(items[k]);
      if fields.Failure? {
        return Failure(fields.error);
      }
      var f, body := fields.value, items[k].body;
      ghost var before := Spliced(conditions, index, aliases, consumerAt);
      for j := 0 to |body|
        invariant SplicedOk(Spliced(conditions, index, aliases, consumerAt))
        invariant ParseBody(resolve, f, body, before)
                  == ParseBody(resolve, f, body[j..], Spliced(conditions, index, aliases, consumerAt))
      {
        assert body[j..][0] == body[j] && body[j..][1..] == body[j + 1..];
        var built := ConditionFor(resolve, f, body[j]);
        if built.Failure? {
          return Failure(built.error);
        }
        if built.value.None? {
          continue;
        }
        var error;
        error, conditions, index, aliases, consumerAt :=
            SpliceEntry(conditions, index, aliases, consumerAt, built.value.value);
        if error.Some? {
          return Failure(error.value);
        }
      }
    }
    result := Success(conditions);
  }
}
