/** The items of a bib grouped by location and, within each, by holding
    (app/adapters/alma_adapter/bib_item_set.rb). */
module Grouping {
  import opened Wrappers
  import opened RubyValues

  /** An item: what it is grouped by, the holding's call number, and its JSON keys and values in order. */
  datatype Item = Item(
    location: string, holdingId: string, callNumber: Option<string>, json: seq<(string, string)>)

  type Groups = seq<(string, seq<Item>)>

  function Keys(groups: Groups): (keys: seq<string>)
    ensures |keys| == |groups| && forall g :: 0 <= g < |groups| ==> keys[g] == groups[g].0
  {
    seq(|groups|, g requires 0 <= g < |groups| => groups[g].0)
  }

  function KeysOf(items: seq<Item>, key: Item -> string): (keys: seq<string>)
    ensures |keys| == |items| && forall i :: 0 <= i < |items| ==> keys[i] == key(items[i])
  {
    seq(|items|, i requires 0 <= i < |items| => key(items[i]))
  }

  function With(items: seq<Item>, key: Item -> string, value: string): seq<Item> {
    Filter(items, (i: Item) => key(i) == value)
  }

  /** `group_by`: one group for each key, in the order in which the keys first appear, each with the items of
      that key in their own order. */
  ghost predicate Grouped(items: seq<Item>, key: Item -> string, groups: Groups) {
    && Keys(groups) == Uniq(KeysOf(items, key))
    && forall g :: 0 <= g < |groups| ==> groups[g].1 == With(items, key, groups[g].0)
  }

  lemma WithOneMore(items: seq<Item>, last: Item, key: Item -> string, value: string)
    ensures With(items + [last], key, value) ==
            if key(last) == value then With(items, key, value) + [last] else With(items, key, value)
  {
    FilterAppend(items, [last], (i: Item) => key(i) == value);
    assert [last][1..] == [];
  }

  /** The items go one by one to the group of their key, which is made when its first item comes. */
  method GroupBy(items: seq<Item>, key: Item -> string) returns (groups: Groups)
    ensures Grouped(items, key, groups)
  {
    groups := [];
    for n := 0 to |items|
      invariant Grouped(items[..n], key, groups)
    {
      var g := 0;
      while g < |groups| && groups[g].0 != key(items[n])
        invariant g <= |groups| && forall h :: 0 <= h < g ==> groups[h].0 != key(items[n])
      {
        g := g + 1;
      }
      assert items[..n + 1] == items[..n] + [items[n]];
      if g < |groups| {
        JoinGroup(items[..n], items[n], key, groups, g);
        groups := groups[g := (groups[g].0, groups[g].1 + [items[n]])];
      } else {
        NewGroup(items[..n], items[n], key, groups);
        groups := groups + [(key(items[n]), [items[n]])];
      }
    }
    assert items[..|items|] == items;
  }

  lemma KeysOneMore(items: seq<Item>, last: Item, key: Item -> string)
    ensures Uniq(KeysOf(items + [last], key)) ==
            if key(last) in KeysOf(items, key) then Uniq(KeysOf(items, key))
            else Uniq(KeysOf(items, key)) + [key(last)]
  {
    assert KeysOf(items + [last], key) == KeysOf(items, key) + [key(last)];
    assert (KeysOf(items, key) + [key(last)])[..|items|] == KeysOf(items, key);
  }

  lemma GroupOneMore(items: seq<Item>, last: Item, key: Item -> string, group: (string, seq<Item>))
    requires group.1 == With(items, key, group.0)
    ensures With(items + [last], key, group.0) ==
            if key(last) == group.0 then group.1 + [last] else group.1
  {
    WithOneMore(items, last, key, group.0);
  }

  lemma KeysDiffer(keys: seq<string>, g: nat, h: nat)
    requires Distinct(keys) && g < |keys| && h < |keys|
    ensures keys[g] == keys[h] <==> g == h
  {
  }

  lemma JoinGroup(items: seq<Item>, last: Item, key: Item -> string, groups: Groups, g: nat)
    requires Grouped(items, key, groups) && g < |groups| && groups[g].0 == key(last)
    ensures Grouped(items + [last], key, groups[g := (groups[g].0, groups[g].1 + [last])])
  {
    var after := groups[g := (groups[g].0, groups[g].1 + [last])];
    KeysOneMore(items, last, key);
    assert Keys(groups)[g] == key(last) && key(last) in Uniq(KeysOf(items, key));
    assert Keys(after) == Keys(groups);
    forall h | 0 <= h < |after| ensures after[h].1 == With(items + [last], key, after[h].0) {
      GroupOneMore(items, last, key, groups[h]);
      KeysDiffer(Keys(groups), g, h);
    }
  }

  lemma NewGroup(items: seq<Item>, last: Item, key: Item -> string, groups: Groups)
    requires Grouped(items, key, groups) && forall h :: 0 <= h < |groups| ==> groups[h].0 != key(last)
    ensures Grouped(items + [last], key, groups + [(key(last), [last])])
  {
    var after := groups + [(key(last), [last])];
    KeysOneMore(items, last, key);
    assert forall k :: k in Keys(groups) ==> k != key(last);
    assert key(last) !in Uniq(KeysOf(items, key));
    assert Keys(after) == Keys(groups) + [key(last)];
    forall h | 0 <= h < |after| ensures after[h].1 == With(items + [last], key, after[h].0) {
      WithOneMore(items, last, key, after[h].0);
      if h == |groups| { NoneWith(items, key, key(last)); }
    }
  }

  lemma NoneWith(items: seq<Item>, key: Item -> string, value: string)
    requires value !in KeysOf(items, key)
    ensures With(items, key, value) == []
  {
    var found := With(items, key, value);
    FirstIn(found);
    assert forall i :: 0 <= i < |items| ==> KeysOf(items, key)[i] != value;
  }

  // ----- a permutation

  function Members(groups: Groups): (members: seq<seq<Item>>)
    ensures |members| == |groups| && forall g :: 0 <= g < |groups| ==> members[g] == groups[g].1
  {
    seq(|groups|, g requires 0 <= g < |groups| => groups[g].1)
  }

  lemma DistinctRest(keys: seq<string>, k: string)
    requires keys != [] && Distinct(keys)
    ensures Distinct(keys[1..]) && keys[0] !in keys[1..]
    ensures k in keys <==> k == keys[0] || k in keys[1..]
  {
    assert keys == [keys[0]] + keys[1..];
  }

  lemma FirstKey(groups: Groups, k: string)
    requires groups != [] && Distinct(Keys(groups))
    ensures Distinct(Keys(groups[1..])) && groups[0].0 !in Keys(groups[1..])
    ensures k in Keys(groups) <==> k == groups[0].0 || k in Keys(groups[1..])
  {
    assert Keys(groups)[1..] == Keys(groups[1..]);
    DistinctRest(Keys(groups), k);
  }

  lemma FirstMembers(groups: Groups, x: Item)
    requires groups != []
    ensures multiset(Flatten(Members(groups)))[x] ==
            multiset(groups[0].1)[x] + multiset(Flatten(Members(groups[1..])))[x]
  {
    assert Members(groups)[1..] == Members(groups[1..]);
  }

  lemma {:induction false} MembersCount(items: seq<Item>, key: Item -> string, groups: Groups, x: Item)
    requires Distinct(Keys(groups))
    requires forall g :: 0 <= g < |groups| ==> groups[g].1 == With(items, key, groups[g].0)
    ensures multiset(Flatten(Members(groups)))[x] == if key(x) in Keys(groups) then multiset(items)[x] else 0
  {
    if groups != [] {
      FirstKey(groups, key(x));
      FirstMembers(groups, x);
      MembersCount(items, key, groups[1..], x);
      FilterCount(items, (i: Item) => key(i) == groups[0].0, x);
    }
  }

  /** Each key has one group, no group is empty, and together the groups hold every item once. */
  lemma GroupsPermute(items: seq<Item>, key: Item -> string, groups: Groups)
    requires Grouped(items, key, groups)
    ensures Distinct(Keys(groups))
    ensures forall g :: 0 <= g < |groups| ==>
              groups[g].1 != [] && forall i :: i in groups[g].1 ==> key(i) == groups[g].0
    ensures multiset(Flatten(Members(groups))) == multiset(items)
  {
    forall g | 0 <= g < |groups| ensures groups[g].1 != [] {
      assert Keys(groups)[g] in Uniq(KeysOf(items, key));
      var n :| 0 <= n < |items| && KeysOf(items, key)[n] == groups[g].0;
      assert items[n] in With(items, key, groups[g].0);
    }
    forall x ensures multiset(Flatten(Members(groups)))[x] == multiset(items)[x] {
      MembersCount(items, key, groups, x);
      if x in items {
        var n :| 0 <= n < |items| && items[n] == x;
        assert KeysOf(items, key)[n] in Keys(groups);
      }
    }
  }

  /** Of two groups the one whose first item comes first in the list stands first. */
  lemma {:induction false} UniqInOrder(keys: seq<string>, i: nat, j: nat) returns (p: nat)
    requires i < j < |Uniq(keys)|
    ensures p < |keys| && keys[p] == Uniq(keys)[i] && Uniq(keys)[j] !in keys[..p + 1]
  {
    var n := |keys| - 1;
    var before := Uniq(keys[..n]);
    if j < |before| {
      p := UniqInOrder(keys[..n], i, j);
      assert keys[..n][..p + 1] == keys[..p + 1];
    } else {
      assert before[i] in keys[..n];
      p :| 0 <= p < n && keys[p] == before[i];
      assert forall k :: 0 <= k < n ==> keys[k] in keys[..n];
    }
  }

  // ----- the summary

  type Json = seq<(string, string)>

  datatype HoldingEntry = HoldingEntry(holdingId: string, callNumber: Option<string>, items: seq<Json>)

  datatype LocationEntry = LocationEntry(code: string, holdings: seq<HoldingEntry>)

  function GroupsOf(items: seq<Item>, key: Item -> string): (groups: Groups)
    ensures Keys(groups) == Uniq(KeysOf(items, key))
    ensures Grouped(items, key, groups)
  {
    var keys := Uniq(KeysOf(items, key));
    var groups := seq(|keys|, g requires 0 <= g < |keys| => (keys[g], With(items, key, keys[g])));
    assert Keys(groups) == keys;
    groups
  }

  lemma GroupedIsGroupsOf(items: seq<Item>, key: Item -> string, groups: Groups)
    requires Grouped(items, key, groups)
    ensures groups == GroupsOf(items, key)
  {
    var same := GroupsOf(items, key);
    forall g | 0 <= g < |groups| ensures groups[g] == same[g] {
      assert Keys(groups)[g] == Keys(same)[g];
    }
  }

  /** The keys that the caller asked for, or all. */
  function Picked(item: Item, filter: Option<set<string>>): Json {
    if filter.None? then item.json else Filter(item.json, (kv: (string, string)) => kv.0 in filter.value)
  }

  function PickedAll(items: seq<Item>, filter: Option<set<string>>): (jsons: seq<Json>)
    ensures |jsons| == |items| && forall i :: 0 <= i < |items| ==> jsons[i] == Picked(items[i], filter)
  {
    seq(|items|, i requires 0 <= i < |items| => Picked(items[i], filter))
  }

  const BY_LOCATION := (i: Item) => i.location

  const BY_HOLDING := (i: Item) => i.holdingId

  /** The items of one holding at one location, in order. */
  function ItemsAt(items: seq<Item>, location: string, holdingId: string): seq<Item> {
    With(With(items, BY_LOCATION, location), BY_HOLDING, holdingId)
  }

  /** What the summary says: unique locations and, within each, unique holdings, both in order of first
      appearance; each holding with its own items in their own order and the call number of the first. */
  ghost predicate Summarizes(items: seq<Item>, filter: Option<set<string>>, summary: seq<LocationEntry>) {
    && |summary| == |GroupsOf(items, BY_LOCATION)|
    && forall l :: 0 <= l < |summary| ==>
       SummarizesLocation(items, filter, GroupsOf(items, BY_LOCATION)[l].0, summary[l])
  }

  ghost predicate SummarizesLocation(
    items: seq<Item>, filter: Option<set<string>>, location: string, entry: LocationEntry)
  {
    var groups := GroupsOf(With(items, BY_LOCATION, location), BY_HOLDING);
    && entry.code == location
    && |entry.holdings| == |groups|
    && forall h :: 0 <= h < |groups| ==>
       SummarizesHolding(ItemsAt(items, location, groups[h].0), filter, groups[h].0, entry.holdings[h])
  }

  ghost predicate SummarizesHolding(
    held: seq<Item>, filter: Option<set<string>>, holdingId: string, entry: HoldingEntry)
  {
    held != [] && entry == HoldingEntry(holdingId, held[0].callNumber, PickedAll(held, filter))
  }

  ghost predicate EntryOf(filter: Option<set<string>>, group: (string, seq<Item>), entry: HoldingEntry) {
    group.1 != [] && entry == HoldingEntry(group.0, group.1[0].callNumber, PickedAll(group.1, filter))
  }

  lemma EntriesSummarize(items: seq<Item>, filter: Option<set<string>>, entry: LocationEntry, groups: Groups)
    requires Grouped(With(items, BY_LOCATION, entry.code), BY_HOLDING, groups)
    requires |entry.holdings| == |groups|
    requires forall h :: 0 <= h < |groups| ==> EntryOf(filter, groups[h], entry.holdings[h])
    ensures SummarizesLocation(items, filter, entry.code, entry)
  {
    GroupedIsGroupsOf(With(items, BY_LOCATION, entry.code), BY_HOLDING, groups);
    forall h | 0 <= h < |groups|
      ensures SummarizesHolding(
                ItemsAt(items, entry.code, groups[h].0), filter, groups[h].0, entry.holdings[h])
    {
      assert EntryOf(filter, groups[h], entry.holdings[h]);
    }
  }

  lemma NoEmptyGroup(here: seq<Item>, groups: Groups)
    requires Grouped(here, BY_HOLDING, groups)
    ensures forall h :: 0 <= h < |groups| ==> groups[h].1 != []
  {
    GroupsPermute(here, BY_HOLDING, groups);
  }

  method SummarizeHoldings(groups: Groups, filter: Option<set<string>>) returns (holdings: seq<HoldingEntry>)
    requires forall h :: 0 <= h < |groups| ==> groups[h].1 != []
    ensures |holdings| == |groups|
    ensures forall h :: 0 <= h < |groups| ==> EntryOf(filter, groups[h], holdings[h])
  {
    holdings := [];
    for h := 0 to |groups|
      invariant |holdings| == h
      invariant forall k :: 0 <= k < h ==> EntryOf(filter, groups[k], holdings[k])
    {
      var (id, held) := groups[h];
      holdings := holdings + [HoldingEntry(id, held[0].callNumber, PickedAll(held, filter))];
    }
  }

  method SummarizeLocation(
    items: seq<Item>, filter: Option<set<string>>, location: string, here: seq<Item>)
    returns (entry: LocationEntry)
    requires here == With(items, BY_LOCATION, location)
    ensures SummarizesLocation(items, filter, location, entry)
  {
    var groups := GroupBy(here, BY_HOLDING);
    NoEmptyGroup(here, groups);
    var holdings := SummarizeHoldings(groups, filter);
    entry := LocationEntry(location, holdings);
    EntriesSummarize(items, filter, entry, groups);
  }

  /** `holding_summary` */
  method HoldingSummary(items: seq<Item>, filter: Option<set<string>>) returns (summary: seq<LocationEntry>)
    ensures Summarizes(items, filter, summary)
  {
    var groups := GroupBy(items, BY_LOCATION);
    GroupedIsGroupsOf(items, BY_LOCATION, groups);
    summary := [];
    for l := 0 to |groups|
      invariant |summary| == l
      invariant forall k :: 0 <= k < l ==> SummarizesLocation(items, filter, groups[k].0, summary[k])
    {
      var entry := SummarizeLocation(items, filter, groups[l].0, groups[l].1);
      summary := summary + [entry];
    }
  }

  // ----- what the summary says of one item

  /** The items with this location and this holding id, in their order. */
  function HeldAt(items: seq<Item>, location: string, holdingId: string): seq<Item> {
    if items == [] then []
    else
      (if items[0].location == location && items[0].holdingId == holdingId then [items[0]] else [])
      + HeldAt(items[1..], location, holdingId)
  }

  lemma {:induction false} ItemsAtAreHeld(items: seq<Item>, location: string, holdingId: string)
    ensures ItemsAt(items, location, holdingId) == HeldAt(items, location, holdingId)
  {
    if items != [] {
      ItemsAtAreHeld(items[1..], location, holdingId);
      var here := With(items[1..], BY_LOCATION, location);
      if items[0].location == location {
        assert With(items, BY_LOCATION, location) == [items[0]] + here;
        assert ([items[0]] + here)[1..] == here;
      } else {
        assert With(items, BY_LOCATION, location) == [] + here == here;
        assert [] + HeldAt(items[1..], location, holdingId) == HeldAt(items[1..], location, holdingId);
      }
    }
  }

  lemma OnlyOneWith(keys: seq<string>, key: string) returns (k: nat)
    requires Distinct(keys) && key in keys
    ensures k < |keys| && forall m :: 0 <= m < |keys| ==> (keys[m] == key <==> m == k)
  {
    k :| 0 <= k < |keys| && keys[k] == key;
  }

  lemma KeyOfItem(items: seq<Item>, key: Item -> string, item: Item)
    requires item in items
    ensures key(item) in Keys(GroupsOf(items, key)) && Distinct(Keys(GroupsOf(items, key)))
  {
    var n :| 0 <= n < |items| && items[n] == item;
    assert KeysOf(items, key)[n] == key(item);
  }

  /** For every item there is exactly one entry with its location, and in it exactly one holding with its
      holding id. That holding has the items with this location and holding id, in their order, and the first
      one's call number. */
  lemma ItemIsListed(items: seq<Item>, filter: Option<set<string>>, summary: seq<LocationEntry>, item: Item)
    returns (l: nat, h: nat)
    requires Summarizes(items, filter, summary) && item in items
    ensures l < |summary| && forall m :: 0 <= m < |summary| ==> (summary[m].code == item.location <==> m == l)
    ensures var holdings := summary[l].holdings;
            && h < |holdings|
            && forall m :: 0 <= m < |holdings| ==> (holdings[m].holdingId == item.holdingId <==> m == h)
    ensures var held, holding := HeldAt(items, item.location, item.holdingId), summary[l].holdings[h];
            && held != [] && holding.callNumber == held[0].callNumber && |holding.items| == |held|
            && forall n :: 0 <= n < |held| ==> holding.items[n] == Picked(held[n], filter)
  {
    KeyOfItem(items, BY_LOCATION, item);
    l := OnlyOneWith(Keys(GroupsOf(items, BY_LOCATION)), item.location);
    forall m | 0 <= m < |summary| ensures summary[m].code == Keys(GroupsOf(items, BY_LOCATION))[m] {
      assert SummarizesLocation(items, filter, GroupsOf(items, BY_LOCATION)[m].0, summary[m]);
    }
    h := HoldingIsListed(items, filter, summary[l], item);
  }

  lemma HoldingIsListed(items: seq<Item>, filter: Option<set<string>>, entry: LocationEntry, item: Item)
    returns (h: nat)
    requires SummarizesLocation(items, filter, item.location, entry) && item in items
    ensures h < |entry.holdings|
    ensures forall m :: 0 <= m < |entry.holdings| ==> (entry.holdings[m].holdingId == item.holdingId <==> m == h)
    ensures var held, holding := HeldAt(items, item.location, item.holdingId), entry.holdings[h];
            && held != [] && holding.callNumber == held[0].callNumber && |holding.items| == |held|
            && forall n :: 0 <= n < |held| ==> holding.items[n] == Picked(held[n], filter)
  {
    var here := With(items, BY_LOCATION, item.location);
    KeyOfItem(here, BY_HOLDING, item);
    var groups := GroupsOf(here, BY_HOLDING);
    h := OnlyOneWith(Keys(groups), item.holdingId);
    forall m | 0 <= m < |groups| ensures entry.holdings[m].holdingId == Keys(groups)[m] {
      assert SummarizesHolding(
          ItemsAt(items, item.location, groups[m].0), filter, groups[m].0, entry.holdings[m]);
    }
    assert SummarizesHolding(ItemsAt(items, item.location, groups[h].0), filter, groups[h].0, entry.holdings[h]);
    ItemsAtAreHeld(items, item.location, item.holdingId);
  }

  /** Nothing else is listed: every entry and every holding in it is that of some item. */
  lemma OnlyItemsListed(
    items: seq<Item>, filter: Option<set<string>>, summary: seq<LocationEntry>, l: nat, h: nat)
    requires Summarizes(items, filter, summary) && l < |summary| && h < |summary[l].holdings|
    ensures exists item :: item in items && item.location == summary[l].code
                           && item.holdingId == summary[l].holdings[h].holdingId
  {
    var location := GroupsOf(items, BY_LOCATION)[l].0;
    assert SummarizesLocation(items, filter, location, summary[l]);
    var groups := GroupsOf(With(items, BY_LOCATION, location), BY_HOLDING);
    var held := ItemsAt(items, location, groups[h].0);
    assert SummarizesHolding(held, filter, groups[h].0, summary[l].holdings[h]);
    assert held[0] in held;
  }

  /** The JSON of an item has the keys that were asked for and no others. */
  lemma PickedKeys(item: Item, filter: Option<set<string>>, key: string, value: string)
    ensures (key, value) in Picked(item, filter) <==>
            (key, value) in item.json && (filter.Some? ==> key in filter.value)
  {
  }

  lemma PickedFirst(item: Item)
    requires |item.json| == 2 && item.json[0].0 == "id" && item.json[1].0 == "description"
    ensures Picked(item, Some({"id"})) == [item.json[0]]
  {
    var asked := (kv: (string, string)) => kv.0 in {"id"};
    assert item.json[1..][1..] == [] && Filter(item.json[1..][1..], asked) == [];
    assert Filter(item.json[1..], asked) == [] + [] == [];
    FilterSame(item.json, asked, (kv: (string, string)) => kv.0 in Some({"id"}).value);
  }

  lemma OneLocation(a: Item, b: Item, filter: Option<set<string>>, summary: seq<LocationEntry>)
    requires a.location == b.location && a.holdingId != b.holdingId && Summarizes([a, b], filter, summary)
    ensures summary == [LocationEntry(a.location, [
                          HoldingEntry(a.holdingId, a.callNumber, [Picked(a, filter)]),
                          HoldingEntry(b.holdingId, b.callNumber, [Picked(b, filter)])])]
  {
    KeysOfTwo(a, b, BY_LOCATION);
    FilterAll([a, b], (i: Item) => BY_LOCATION(i) == a.location);
    assert GroupsOf([a, b], BY_LOCATION)[0].0 == Keys(GroupsOf([a, b], BY_LOCATION))[0] == a.location;
    HoldingsOfTwo(a, b, filter, summary[0]);
  }

  lemma KeysOfTwo(a: Item, b: Item, key: Item -> string)
    ensures Keys(GroupsOf([a, b], key)) == if key(a) == key(b) then [key(a)] else [key(a), key(b)]
  {
    assert KeysOf([a, b], key) == [key(a), key(b)];
    UniqTwo(key(a), key(b));
  }

  lemma UniqTwo(x: string, y: string)
    ensures Uniq([x, y]) == if x == y then [x] else [x, y]
  {
    assert [x, y][..1] == [x] && [x][..0] == [];
    assert Uniq([x]) == [] + [x];
  }

  lemma HoldingsOfTwo(a: Item, b: Item, filter: Option<set<string>>, entry: LocationEntry)
    requires a.location == b.location && a.holdingId != b.holdingId
    requires SummarizesLocation([a, b], filter, a.location, entry)
    requires With([a, b], BY_LOCATION, a.location) == [a, b]
    ensures entry.holdings == [HoldingEntry(a.holdingId, a.callNumber, [Picked(a, filter)]),
                               HoldingEntry(b.holdingId, b.callNumber, [Picked(b, filter)])]
  {
    var groups := GroupsOf([a, b], BY_HOLDING);
    KeysOfTwo(a, b, BY_HOLDING);
    assert Keys(groups)[0] == a.holdingId && Keys(groups)[1] == b.holdingId;
    ItemsAtAreHeld([a, b], a.location, a.holdingId);
    ItemsAtAreHeld([a, b], a.location, b.holdingId);
    assert [a, b][1..] == [b] && [b][1..] == [];
    assert HeldAt([b], a.location, a.holdingId) == [] + [] == [];
    assert HeldAt([a, b], a.location, a.holdingId) == [a];
    assert HeldAt([b], a.location, b.holdingId) == [b] + [] == [b];
    assert HeldAt([a, b], a.location, b.holdingId) == [] + [b] == [b];
    assert PickedAll([a], filter) == [Picked(a, filter)] && PickedAll([b], filter) == [Picked(b, filter)];
    assert SummarizesHolding([a], filter, a.holdingId, entry.holdings[0]);
    assert SummarizesHolding([b], filter, b.holdingId, entry.holdings[1]);
  }

  /** Two items of one location with different holdings, of which one key is asked for. */
  lemma TwoHoldings(summary: seq<LocationEntry>)
    requires var a := Item("firestone$stacks", "22A", Some("HD1"), [("id", "1"), ("description", "v. 1")]);
             var b := Item("firestone$stacks", "22B", Some("HD2"), [("id", "2"), ("description", "v. 2")]);
             Summarizes([a, b], Some({"id"}), summary)
    ensures summary == [LocationEntry("firestone$stacks", [
                          HoldingEntry("22A", Some("HD1"), [[("id", "1")]]),
                          HoldingEntry("22B", Some("HD2"), [[("id", "2")]])])]
  {
    var a := Item("firestone$stacks", "22A", Some("HD1"), [("id", "1"), ("description", "v. 1")]);
    var b := Item("firestone$stacks", "22B", Some("HD2"), [("id", "2"), ("description", "v. 2")]);
    OneLocation(a, b, Some({"id"}), summary);
    PickedFirst(a);
    PickedFirst(b);
  }

  /** The items in the order in which the summary lists them. */
  function Listed(items: seq<Item>): seq<Item> {
    Flatten(ListedAt(GroupsOf(items, BY_LOCATION)))
  }

  function ListedAt(locations: Groups): (listed: seq<seq<Item>>)
    ensures |listed| == |locations|
    ensures forall l :: 0 <= l < |locations| ==>
            listed[l] == Flatten(Members(GroupsOf(locations[l].1, BY_HOLDING)))
  {
    seq(|locations|, l requires 0 <= l < |locations| =>
      Flatten(Members(GroupsOf(locations[l].1, BY_HOLDING))))
  }

  lemma {:induction false} SameBags(a: seq<seq<Item>>, b: seq<seq<Item>>)
    requires |a| == |b| && forall k :: 0 <= k < |a| ==> multiset(a[k]) == multiset(b[k])
    ensures multiset(Flatten(a)) == multiset(Flatten(b))
  {
    if a != [] { SameBags(a[1..], b[1..]); }
  }

  /** Flattening the summary gives every item exactly once. */
  lemma ListedPermutes(items: seq<Item>)
    ensures multiset(Listed(items)) == multiset(items)
  {
    var locations := GroupsOf(items, BY_LOCATION);
    GroupsPermute(items, BY_LOCATION, locations);
    forall l | 0 <= l < |locations|
      ensures multiset(ListedAt(locations)[l]) == multiset(Members(locations)[l])
    {
      GroupsPermute(locations[l].1, BY_HOLDING, GroupsOf(locations[l].1, BY_HOLDING));
    }
    SameBags(ListedAt(locations), Members(locations));
  }

  function JsonsOf(holdings: seq<HoldingEntry>): seq<Json> {
    if holdings == [] then [] else holdings[0].items + JsonsOf(holdings[1..])
  }

  function AllJsons(summary: seq<LocationEntry>): seq<Json> {
    if summary == [] then [] else JsonsOf(summary[0].holdings) + AllJsons(summary[1..])
  }

  lemma {:induction false} JsonsOfGroups(
    groups: Groups, filter: Option<set<string>>, holdings: seq<HoldingEntry>)
    requires |holdings| == |groups|
    requires forall h :: 0 <= h < |groups| ==> holdings[h].items == PickedAll(groups[h].1, filter)
    ensures JsonsOf(holdings) == PickedAll(Flatten(Members(groups)), filter)
  {
    if groups != [] {
      JsonsOfGroups(groups[1..], filter, holdings[1..]);
      assert Members(groups)[1..] == Members(groups[1..]);
    }
  }

  lemma {:induction false} AllJsonsOfLists(
    lists: seq<seq<Item>>, filter: Option<set<string>>, summary: seq<LocationEntry>)
    requires |summary| == |lists|
    requires forall l :: 0 <= l < |lists| ==> JsonsOf(summary[l].holdings) == PickedAll(lists[l], filter)
    ensures AllJsons(summary) == PickedAll(Flatten(lists), filter)
  {
    if lists != [] {
      AllJsonsOfLists(lists[1..], filter, summary[1..]);
    }
  }

  /** The JSON items of a summary, taken in order, are those of a permutation of the items. */
  lemma SummaryListsEveryItem(items: seq<Item>, filter: Option<set<string>>, summary: seq<LocationEntry>)
    requires Summarizes(items, filter, summary)
    ensures AllJsons(summary) == PickedAll(Listed(items), filter)
    ensures multiset(Listed(items)) == multiset(items)
  {
    ListedPermutes(items);
    var locations := GroupsOf(items, BY_LOCATION);
    forall l | 0 <= l < |locations|
      ensures JsonsOf(summary[l].holdings) == PickedAll(ListedAt(locations)[l], filter)
    {
      assert SummarizesLocation(items, filter, locations[l].0, summary[l]);
      JsonsOfGroups(GroupsOf(locations[l].1, BY_HOLDING), filter, summary[l].holdings);
    }
    AllJsonsOfLists(ListedAt(locations), filter, summary);
  }
}
