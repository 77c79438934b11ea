/**
 Where the entries of a parsed list come from, told on the maps that were read: which
 pairs give an entry and which, when the parser succeeds, and how it fails.
 */
module RuleOrigins {
  import opened Wrappers
  import opened Conditions
  import opened Strings
  import opened RuleParser

  // ----- reading one pair of a map -----

  predicate Gives(raw: RawString, text: string) {
    if raw.NoString? then text == "" else raw == GivenString(text)
  }

  predicate Flags(raw: RawBool, flag: bool) {
    if raw.NoBool? then !flag else raw == GivenBool(flag)
  }

  /** The key is the name of a provider and of one of its capabilities with a dot between them. */
  predicate Names(key: string, provider: string, capability: string) {
    key == provider + "." + capability && '.' !in provider && '.' !in capability
  }

  /** The value is a list that can be parsed. */
  ghost predicate IsList(resolve: Resolver, value: Value) {
    value.ListValue? && Parse(resolve, value.items).Success?
  }

  ghost function Inner(resolve: Resolver, value: Value): seq<Entry>
    requires IsList(resolve, value)
  {
    Parse(resolve, value.items).value.conditions
  }

  /** The entry has the fields of the item and, for its condition, what the pair stands for. */
  ghost predicate Describes(resolve: Resolver, item: Item, pair: Pair, e: Entry) {
    && item.ItemMap?
    && Gives(item.from, e.from) && Gives(item.alias, e.alias)
    && Flags(item.ignorable, e.ignorable) && Flags(item.negated, e.negated)
    && IsConditionOf(resolve, pair, e.cond)
  }

  ghost predicate IsConditionOf(resolve: Resolver, pair: Pair, c: Conditional) {
    && pair.key.TextKey?
    && if pair.key.text == "and" then IsList(resolve, pair.value) && c == And(Inner(resolve, pair.value))
       else if pair.key.text == "or" then IsList(resolve, pair.value) && c == Or(Inner(resolve, pair.value))
       else
         && c.Provider?
         && exists provider, capability ::
              && Names(pair.key.text, provider, capability)
              && resolve(provider, capability, pair.value) == Condition(c.id)
  }

  /** The parser can make something of the pair, be it nothing. */
  ghost predicate IsReadable(resolve: Resolver, pair: Pair) {
    && pair.key.TextKey?
    && if pair.key.text in ["and", "or"] then IsList(resolve, pair.value)
       else exists provider, capability ::
         Names(pair.key.text, provider, capability) && !resolve(provider, capability, pair.value).Failed?
  }

  /** An and of which some condition was skipped, an or of which all were, or a provider that is not there. */
  ghost predicate IsSkipped(resolve: Resolver, pair: Pair) {
    && pair.key.TextKey?
    && if pair.key.text == "and" then
         IsList(resolve, pair.value) && |Inner(resolve, pair.value)| != |pair.value.items|
       else if pair.key.text == "or" then IsList(resolve, pair.value) && Inner(resolve, pair.value) == []
       else exists provider, capability ::
         && Names(pair.key.text, provider, capability)
         && var found := resolve(provider, capability, pair.value);
            found.Missing? || found.Skipped?
  }

  lemma NamesAreTheParts(key: string, provider: string, capability: string)
    ensures Names(key, provider, capability) <==> Split(key, '.') == [provider, capability]
  {
    if Names(key, provider, capability) {
      SplitAtFirst(provider, '.', capability);
      SplitWithout(capability, '.');
      assert provider + ['.'] + capability == key;
    }
    if Split(key, '.') == [provider, capability] {
      SplitParts(key, '.');
      assert provider in Split(key, '.') && capability in Split(key, '.');
      assert provider + ['.'] + capability == provider + "." + capability;
    }
  }

  predicate WellTyped(item: Item) {
    && item.ItemMap?
    && !item.from.NotAString? && !item.alias.NotAString? && !item.ignorable.NotABool? && !item.negated.NotABool?
  }

  lemma ListEntry(resolve: Resolver, f: Fields, pair: Pair)
    requires pair.key.TextKey? && (pair.key.text == "and" || pair.key.text == "or")
    ensures
      var built := EntryFor(resolve, f, pair);
      && (built.Success? <==> IsReadable(resolve, pair))
      && (built.Success? ==> (built.value.None? <==> IsSkipped(resolve, pair)))
      && (built.Success? && built.value.Some? ==>
            && IsConditionOf(resolve, pair, built.value.value.cond)
            && built.value.value == Entry(f.from, f.alias, f.ignorable, f.negated, built.value.value.cond))
  {
  }

  lemma ProviderEntry(resolve: Resolver, f: Fields, pair: Pair)
    requires pair.key.TextKey? && pair.key.text != "and" && pair.key.text != "or"
    ensures
      var built := EntryFor(resolve, f, pair);
      && (built.Success? <==> IsReadable(resolve, pair))
      && (built.Success? ==> (built.value.None? <==> IsSkipped(resolve, pair)))
      && (built.Success? && built.value.Some? ==>
            && IsConditionOf(resolve, pair, built.value.value.cond)
            && built.value.value == Entry(f.from, f.alias, f.ignorable, f.negated, built.value.value.cond))
  {
    var key := pair.key.text;
    forall provider, capability
      ensures Names(key, provider, capability) <==> Split(key, '.') == [provider, capability]
    {
      NamesAreTheParts(key, provider, capability);
    }
    if |Split(key, '.')| == 2 {
      var parts := Split(key, '.');
      assert parts == [parts[0], parts[1]] && Names(key, parts[0], parts[1]);
    }
  }

  /** What one pair comes to. */
  lemma EntryIsDescribed(resolve: Resolver, item: Item, pair: Pair)
    requires WellTyped(item) && ReadFields(item).Success?
    ensures
      var built := EntryFor(resolve, ReadFields(item).value, pair);
      && (built.Success? <==> IsReadable(resolve, pair))
      && (built.Success? ==> (built.value.None? <==> IsSkipped(resolve, pair)))
      && (built.Success? && built.value.Some? ==> Describes(resolve, item, pair, built.value.value))
  {
    var f := ReadFields(item).value;
    if pair.key.TextKey? {
      if pair.key.text == "and" || pair.key.text == "or" {
        ListEntry(resolve, f, pair);
      } else {
        ProviderEntry(resolve, f, pair);
      }
    }
  }

  // ----- the whole list -----

  datatype Source = Source(item: Item, pair: Pair)

  /** The pairs of one map that are not skipped. */
  ghost function PairSources(resolve: Resolver, item: Item, body: seq<Pair>): seq<Source> {
    if body == [] then []
    else
      (if IsSkipped(resolve, body[0]) then [] else [Source(item, body[0])]) + PairSources(resolve, item, body[1..])
  }

  /** The pairs of the list that are not skipped, each with the map it is in. */
  ghost function Sources(resolve: Resolver, items: seq<Item>): seq<Source> {
    if items == [] then []
    else
      (if items[0].ItemMap? then PairSources(resolve, items[0], items[0].body) else [])
      + Sources(resolve, items[1..])
  }

  /** The entries describe the sources, one each and in order. */
  ghost predicate BuiltFrom(resolve: Resolver, sources: seq<Source>, built: seq<Entry>) {
    && |built| == |sources|
    && forall k :: 0 <= k < |built| ==> Describes(resolve, sources[k].item, sources[k].pair, built[k])
  }

  predicate AllWellTyped(items: seq<Item>) {
    forall item <- items :: WellTyped(item)
  }

  ghost predicate AllReadable(resolve: Resolver, items: seq<Item>) {
    forall item <- items :: item.ItemMap? ==> forall pair <- item.body :: IsReadable(resolve, pair)
  }

  lemma BuiltFromBoth(resolve: Resolver, a: seq<Source>, b: seq<Source>, x: seq<Entry>, y: seq<Entry>)
    requires BuiltFrom(resolve, a, x) && BuiltFrom(resolve, b, y)
    ensures BuiltFrom(resolve, a + b, x + y)
  {
    forall k | 0 <= k < |x + y|
      ensures Describes(resolve, (a + b)[k].item, (a + b)[k].pair, (x + y)[k])
    {
      if k < |x| {
        assert (x + y)[k] == x[k] && (a + b)[k] == a[k];
      } else {
        assert (x + y)[k] == y[k - |x|] && (a + b)[k] == b[k - |a|];
      }
    }
  }

  lemma {:induction false} BodyIsBuiltFrom(resolve: Resolver, item: Item, body: seq<Pair>)
    requires WellTyped(item) && ReadFields(item).Success? && forall pair <- body :: IsReadable(resolve, pair)
    ensures BuiltFrom(resolve, PairSources(resolve, item, body), BuiltBody(resolve, ReadFields(item).value, body))
    decreases |body|
  {
    if body != [] {
      var pair, rest := body[0], body[1..];
      EntryIsDescribed(resolve, item, pair);
      BodyIsBuiltFrom(resolve, item, rest);
      var f := ReadFields(item).value;
      var built := EntryFor(resolve, f, pair).value;
      var x := if built.Some? then [built.value] else [];
      var a := if IsSkipped(resolve, pair) then [] else [Source(item, pair)];
      BuiltFromBoth(resolve, a, PairSources(resolve, item, rest), x, BuiltBody(resolve, f, rest));
    }
  }

  lemma {:induction false} ItemsAreBuiltFrom(resolve: Resolver, items: seq<Item>)
    requires AllWellTyped(items) && AllReadable(resolve, items)
    ensures BuiltFrom(resolve, Sources(resolve, items), Built(resolve, items))
    decreases |items|
  {
    if items != [] {
      var item := items[0];
      assert WellTyped(item);
      BodyIsBuiltFrom(resolve, item, item.body);
      ItemsAreBuiltFrom(resolve, items[1..]);
      BuiltFromBoth(resolve, PairSources(resolve, item, item.body), Sources(resolve, items[1..]),
                    BuiltBody(resolve, ReadFields(item).value, item.body), Built(resolve, items[1..]));
    }
  }

  // ----- when parsing succeeds -----

  function AliasesOf(built: seq<Entry>): seq<string> {
    if built == [] then []
    else (if built[0].alias == "" then [] else [built[0].alias]) + AliasesOf(built[1..])
  }

  /** The entries may be added one after the other when these `as` names have been used. */
  predicate Admissible(used: seq<string>, built: seq<Entry>)
    decreases |built|
  {
    built == []
    || var e := built[0];
       && (e.alias != "" ==> e.from != e.alias && e.alias !in used)
       && Admissible(used + (if e.alias == "" then [] else [e.alias]), built[1..])
  }

  lemma {:induction false} AdmissibleBoth(used: seq<string>, a: seq<Entry>, b: seq<Entry>)
    ensures Admissible(used, a + b) <==> Admissible(used, a) && Admissible(used + AliasesOf(a), b)
    ensures AliasesOf(a + b) == AliasesOf(a) + AliasesOf(b)
    decreases |a|
  {
    if a == [] {
      assert a + b == b && used + AliasesOf(a) == used;
    } else {
      var own := if a[0].alias == "" then [] else [a[0].alias];
      assert (a + b)[1..] == a[1..] + b;
      AdmissibleBoth(used + own, a[1..], b);
      assert used + AliasesOf(a) == used + own + AliasesOf(a[1..]);
    }
  }

  lemma {:induction false} AdmissibleIff(used: seq<string>, built: seq<Entry>)
    ensures Admissible(used, built) <==>
      NoSelfLinks(built) && UniqueAliases(built) && forall e <- built :: e.alias != "" ==> e.alias !in used
    decreases |built|
  {
    if built != [] {
      var e, rest := built[0], built[1..];
      AdmissibleIff(used + (if e.alias == "" then [] else [e.alias]), rest);
      assert forall x :: x in built <==> x == e || x in rest;
      assert forall k :: 0 < k < |built| ==> built[k] == rest[k - 1];
      UniqueAliasesFromTheFront(built);
    }
  }

  lemma UniqueAliasesFromTheFront(built: seq<Entry>)
    requires built != []
    ensures UniqueAliases(built) <==>
      UniqueAliases(built[1..]) && forall e <- built[1..] :: built[0].alias != "" ==> e.alias != built[0].alias
  {
    var rest := built[1..];
    assert forall k :: 0 < k < |built| ==> built[k] == rest[k - 1];
    assert forall k :: 0 <= k < |rest| ==> rest[k] == built[k + 1];
    if UniqueAliases(built) {
      forall i, j | 0 <= i < j < |rest| && rest[i].alias != ""
        ensures rest[i].alias != rest[j].alias
      {
        assert built[i + 1].alias != built[j + 1].alias;
      }
    }
  }

  /** What comes of adding these entries after others that have used some `as` names. */
  predicate Comes(r: Result<Spliced, ParseError>, used: seq<string>, built: seq<Entry>, readable: bool) {
    && (r.Success? <==> readable && Admissible(used, built))
    && (r.Success? ==> r.value.aliases == used + AliasesOf(built))
  }

  lemma Regroup(a: seq<string>, b: seq<string>, c: seq<string>)
    ensures (a + b) + c == a + (b + c)
  {
  }

  lemma FirstThenRest(r: Result<Spliced, ParseError>, first: Result<Spliced, ParseError>, used: seq<string>,
      own: seq<Entry>, more: seq<Entry>, readable: bool, restReadable: bool)
    requires Comes(first, used, own, readable)
    requires if first.Success? then Comes(r, first.value.aliases, more, restReadable) else r.Failure?
    ensures Comes(r, used, own + more, readable && restReadable)
  {
    AdmissibleBoth(used, own, more);
    Regroup(used, AliasesOf(own), AliasesOf(more));
  }

  lemma NothingComes(s: Spliced)
    ensures Comes(Success(s), s.aliases, [], true)
  {
  }

  function OptionToSeq(e: Option<Entry>): seq<Entry> {
    if e.Some? then [e.value] else []
  }

  ghost function BuiltPair(resolve: Resolver, f: Fields, pair: Pair): seq<Entry> {
    var built := EntryFor(resolve, f, pair);
    if built.Success? then OptionToSeq(built.value) else []
  }

  lemma PairComes(resolve: Resolver, f: Fields, pair: Pair, s: Spliced)
    requires SplicedOk(s)
    ensures Comes(ParsePair(resolve, f, pair, s), s.aliases, BuiltPair(resolve, f, pair),
                  EntryFor(resolve, f, pair).Success?)
  {
    var built := EntryFor(resolve, f, pair);
    if built.Success? && built.value.Some? {
      var e := built.value.value;
      assert [e][1..] == [];
      assert AliasesOf([e]) == if e.alias == "" then [] else [e.alias];
    }
  }

  ghost predicate AllPairsRead(resolve: Resolver, f: Fields, body: seq<Pair>) {
    forall pair <- body :: EntryFor(resolve, f, pair).Success?
  }

  lemma BodySplits(resolve: Resolver, f: Fields, body: seq<Pair>, s: Spliced)
    requires SplicedOk(s) && body != []
    ensures BuiltBody(resolve, f, body) == BuiltPair(resolve, f, body[0]) + BuiltBody(resolve, f, body[1..])
    ensures AllPairsRead(resolve, f, body) ==
            (EntryFor(resolve, f, body[0]).Success? && AllPairsRead(resolve, f, body[1..]))
    ensures
      var t := ParsePair(resolve, f, body[0], s);
      if t.Success? then ParseBody(resolve, f, body, s) == ParseBody(resolve, f, body[1..], t.value)
      else ParseBody(resolve, f, body, s) == Failure(t.error)
  {
    assert forall x :: x in body <==> x == body[0] || x in body[1..];
  }

  lemma {:induction false} BodyComes(resolve: Resolver, f: Fields, body: seq<Pair>, s: Spliced)
    requires SplicedOk(s)
    ensures Comes(ParseBody(resolve, f, body, s), s.aliases, BuiltBody(resolve, f, body),
                  AllPairsRead(resolve, f, body))
    decreases |body|
  {
    if body == [] {
      NothingComes(s);
    } else {
      var pair, rest, t := body[0], body[1..], ParsePair(resolve, f, body[0], s);
      BodySplits(resolve, f, body, s);
      PairComes(resolve, f, pair, s);
      if t.Success? {
        BodyComes(resolve, f, rest, t.value);
      }
      FirstThenRest(ParseBody(resolve, f, body, s), t, s.aliases, BuiltPair(resolve, f, pair),
                    BuiltBody(resolve, f, rest), EntryFor(resolve, f, pair).Success?, AllPairsRead(resolve, f, rest));
    }
  }

  ghost function BuiltItem(resolve: Resolver, item: Item): seq<Entry> {
    if item.ItemMap? && ReadFields(item).Success? then BuiltBody(resolve, ReadFields(item).value, item.body) else []
  }

  ghost predicate ReadableItem(resolve: Resolver, item: Item) {
    WellTyped(item) && forall pair <- item.body :: IsReadable(resolve, pair)
  }

  lemma ItemComes(resolve: Resolver, item: Item, s: Spliced)
    requires SplicedOk(s)
    ensures Comes(ParseItem(resolve, item, s), s.aliases, BuiltItem(resolve, item), ReadableItem(resolve, item))
  {
    if WellTyped(item) {
      var f := ReadFields(item).value;
      BodyComes(resolve, f, item.body, s);
      forall pair | pair in item.body
        ensures EntryFor(resolve, f, pair).Success? <==> IsReadable(resolve, pair)
      {
        EntryIsDescribed(resolve, item, pair);
      }
    }
  }

  ghost predicate AllItemsReadable(resolve: Resolver, items: seq<Item>) {
    forall item <- items :: ReadableItem(resolve, item)
  }

  lemma ItemsSplit(resolve: Resolver, items: seq<Item>, s: Spliced)
    requires SplicedOk(s) && items != []
    ensures Built(resolve, items) == BuiltItem(resolve, items[0]) + Built(resolve, items[1..])
    ensures AllItemsReadable(resolve, items) ==
            (ReadableItem(resolve, items[0]) && AllItemsReadable(resolve, items[1..]))
    ensures
      var t := ParseItem(resolve, items[0], s);
      if t.Success? then ParseItems(resolve, items, s) == ParseItems(resolve, items[1..], t.value)
      else ParseItems(resolve, items, s) == Failure(t.error)
  {
    assert forall x :: x in items <==> x == items[0] || x in items[1..];
  }

  lemma {:induction false} ItemsCome(resolve: Resolver, items: seq<Item>, s: Spliced)
    requires SplicedOk(s)
    ensures Comes(ParseItems(resolve, items, s), s.aliases, Built(resolve, items), AllItemsReadable(resolve, items))
    decreases |items|
  {
    if items == [] {
      NothingComes(s);
    } else {
      var item, rest, t := items[0], items[1..], ParseItem(resolve, items[0], s);
      ItemsSplit(resolve, items, s);
      ItemComes(resolve, item, s);
      if t.Success? {
        ItemsCome(resolve, rest, t.value);
      }
      FirstThenRest(ParseItems(resolve, items, s), t, s.aliases, BuiltItem(resolve, item), Built(resolve, rest),
                    ReadableItem(resolve, item), AllItemsReadable(resolve, rest));
    }
  }

  /**
   A list is parsed if and only if each item is a map with fields of the right types, each
   pair can be read, and the entries they describe have different `as` names, none of
   them equal to the entry's own `from`.
   */
  lemma ParsedIff(resolve: Resolver, items: seq<Item>)
    ensures Parse(resolve, items).Success? <==>
      && AllWellTyped(items) && AllReadable(resolve, items)
      && exists built ::
           BuiltFrom(resolve, Sources(resolve, items), built) && NoSelfLinks(built) && UniqueAliases(built)
  {
    ItemsCome(resolve, items, Empty);
    AdmissibleIff([], Built(resolve, items));
    if AllWellTyped(items) && AllReadable(resolve, items) {
      ItemsAreBuiltFrom(resolve, items);
      forall built | BuiltFrom(resolve, Sources(resolve, items), built)
        ensures built == Built(resolve, items)
      {
        DescribedOnce(resolve, Sources(resolve, items), built, Built(resolve, items));
      }
    }
  }

  lemma ConditionIsUnique(resolve: Resolver, pair: Pair, c: Conditional, d: Conditional)
    requires IsConditionOf(resolve, pair, c) && IsConditionOf(resolve, pair, d)
    ensures c == d
  {
    if pair.key.text != "and" && pair.key.text != "or" {
      var p, q :| Names(pair.key.text, p, q) && resolve(p, q, pair.value) == Condition(c.id);
      var p', q' :| Names(pair.key.text, p', q') && resolve(p', q', pair.value) == Condition(d.id);
      NamesAreTheParts(pair.key.text, p, q);
      NamesAreTheParts(pair.key.text, p', q');
    }
  }

  lemma DescribedOnce(resolve: Resolver, sources: seq<Source>, a: seq<Entry>, b: seq<Entry>)
    requires BuiltFrom(resolve, sources, a) && BuiltFrom(resolve, sources, b)
    ensures a == b
  {
    forall k | 0 <= k < |a|
      ensures a[k] == b[k]
    {
      ConditionIsUnique(resolve, sources[k].pair, a[k].cond, b[k].cond);
    }
  }

  /**
   Of a list that was parsed, every pair that is not skipped has given one entry, with the
   fields of its map and the condition it stands for, and there are no others.
   */
  lemma ParsedComesFromItsItems(resolve: Resolver, items: seq<Item>) returns (built: seq<Entry>)
    requires Parse(resolve, items).Success?
    ensures BuiltFrom(resolve, Sources(resolve, items), built)
    ensures multiset(Parse(resolve, items).value.conditions) == multiset(built)
  {
    ItemsCome(resolve, items, Empty);
    ItemsAreBuiltFrom(resolve, items);
    ParsedIsWhatWasBuilt(resolve, items);
    built := Built(resolve, items);
  }

  /** In particular each single entry has its fields from one of the maps. */
  lemma EntryComesFromItsItem(resolve: Resolver, items: seq<Item>, e: Entry) returns (item: Item, pair: Pair)
    requires Parse(resolve, items).Success? && e in Parse(resolve, items).value.conditions
    ensures item in items && item.ItemMap? && pair in item.body && Describes(resolve, item, pair, e)
  {
    var built := ParsedComesFromItsItems(resolve, items);
    assert e in multiset(built);
    var k :| 0 <= k < |built| && built[k] == e;
    var source := Sources(resolve, items)[k];
    item, pair := source.item, source.pair;
    SourcesAreInItems(resolve, items, source);
  }

  lemma {:induction false} PairSourcesAreInBody(resolve: Resolver, item: Item, body: seq<Pair>, source: Source)
    requires source in PairSources(resolve, item, body)
    ensures source.item == item && source.pair in body
    decreases |body|
  {
    if source in PairSources(resolve, item, body[1..]) {
      PairSourcesAreInBody(resolve, item, body[1..], source);
    }
  }

  lemma {:induction false} SourcesAreInItems(resolve: Resolver, items: seq<Item>, source: Source)
    requires source in Sources(resolve, items)
    ensures source.item in items && source.item.ItemMap? && source.pair in source.item.body
    decreases |items|
  {
    if source in Sources(resolve, items[1..]) {
      SourcesAreInItems(resolve, items[1..], source);
    } else {
      PairSourcesAreInBody(resolve, items[0], items[0].body, source);
    }
  }

  // ----- how parsing fails -----

  lemma EmptyIsOk()
    ensures SplicedOk(Empty)
  {
  }

  /** The first item with a field of the wrong type is reported, its fields in this order. */
  lemma BadFieldIsReported(resolve: Resolver, items: seq<Item>)
    requires items != [] && !WellTyped(items[0])
    ensures
      var item := items[0];
      Parse(resolve, items) == Failure(
        if item.NotAMap? then NotAnObject
        else if item.from.NotAString? then BadFrom
        else if item.alias.NotAString? then BadAlias
        else if item.ignorable.NotABool? then BadIgnore
        else BadNot)
  {
    EmptyIsOk();
    ItemsSplit(resolve, items, Empty);
  }

  lemma FirstPairFails(resolve: Resolver, items: seq<Item>, error: ParseError)
    requires items != [] && WellTyped(items[0]) && items[0].body != []
    requires EntryFor(resolve, ReadFields(items[0]).value, items[0].body[0]) == Failure(error)
    ensures Parse(resolve, items) == Failure(error)
  {
    var f := ReadFields(items[0]).value;
    EmptyIsOk();
    ItemsSplit(resolve, items, Empty);
    BodySplits(resolve, f, items[0].body, Empty);
    assert ParsePair(resolve, f, items[0].body[0], Empty) == Failure(error);
  }

  lemma UnnamedKeyIsBad(resolve: Resolver, f: Fields, pair: Pair)
    requires pair.key.TextKey? && pair.key.text !in ["and", "or", ""]
    requires forall provider, capability :: !Names(pair.key.text, provider, capability)
    ensures EntryFor(resolve, f, pair) == Failure(BadProviderKey)
  {
    var parts := Split(pair.key.text, '.');
    if |parts| == 2 {
      assert parts == [parts[0], parts[1]];
      NamesAreTheParts(pair.key.text, parts[0], parts[1]);
    }
  }

  lemma NamedKeyFails(resolve: Resolver, f: Fields, pair: Pair, provider: string, capability: string)
    requires pair.key.TextKey? && pair.key.text !in ["and", "or"] && Names(pair.key.text, provider, capability)
    requires resolve(provider, capability, pair.value).Failed?
    ensures EntryFor(resolve, f, pair) == Failure(ProviderFailed)
  {
    NamesAreTheParts(pair.key.text, provider, capability);
  }

  /** And so is the first pair that cannot be read. */
  lemma BadPairIsReported(resolve: Resolver, items: seq<Item>)
    requires items != [] && WellTyped(items[0]) && items[0].body != [] && !IsReadable(resolve, items[0].body[0])
    ensures
      var pair := items[0].body[0];
      Parse(resolve, items) == Failure(
        if pair.key.OtherKey? then BadKey
        else if pair.key.text == "and" || pair.key.text == "or" then
          if pair.value.OtherValue? then NotAnArray else Parse(resolve, pair.value.items).error
        else if pair.key.text == "" then EmptyKey
        else if exists provider, capability :: Names(pair.key.text, provider, capability) then ProviderFailed
        else BadProviderKey)
  {
    var pair, f := items[0].body[0], ReadFields(items[0]).value;
    if pair.key.TextKey? && pair.key.text !in ["and", "or", ""] {
      if provider, capability :| Names(pair.key.text, provider, capability) {
        NamedKeyFails(resolve, f, pair, provider, capability);
      } else {
        UnnamedKeyIsBad(resolve, f, pair);
      }
    }
    assert EntryFor(resolve, f, pair).Failure?;
    FirstPairFails(resolve, items, EntryFor(resolve, f, pair).error);
  }

  // ----- where entries are put -----

  /**
   An entry with an `as` name goes to the recorded index of the last entry that takes that
   name and stores nothing, or to the front; any other entry goes to the end, and when it
   takes a name its index is recorded.
   */
  lemma EntryIsPlaced(s: Spliced, e: Entry)
    requires SplicedOk(s) && Splice(s, e).Success?
    ensures
      var t := Splice(s, e).value;
      if e.alias != "" then
        && t.index == s.index
        && |t.conditions| == |s.conditions| + 1
        && var i := if e.alias in s.index then s.index[e.alias] else 0;
           && i <= |s.conditions| && t.conditions[i] == e
           && t.conditions[..i] == s.conditions[..i] && t.conditions[i + 1..] == s.conditions[i..]
      else
        && t.conditions == s.conditions + [e]
        && t.index == (if e.from != "" then s.index[e.from := |s.conditions|] else s.index)
  {
  }

  /** Only a self-link and an `as` name that has been used are refused. */
  lemma SpliceFailsIff(s: Spliced, e: Entry)
    requires SplicedOk(s)
    ensures Splice(s, e) == Failure(FromIsAlias) <==> e.alias != "" && e.from == e.alias
    ensures Splice(s, e) == Failure(DuplicateAlias) <==> e.alias != "" && e.from != e.alias && e.alias in s.aliases
    ensures Splice(s, e).Failure? ==> Splice(s, e).error in [FromIsAlias, DuplicateAlias]
  {
  }
}
