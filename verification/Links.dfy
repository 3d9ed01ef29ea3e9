/** Electronic links: collected with a growing list that is put into the hashes again after every 856, and
    moved from the record to its holdings (marc_to_solr/lib/princeton_marc.rb:118-184,
    marc_to_solr/lib/traject_config.rb:1159-1172). */
module Links {
  import opened Wrappers
  import opened RubyValues

  type Labels = seq<Option<string>>

  /** The link that one 856 puts on the list. */
  datatype Link = Link(holdingId: Option<string>, urlKey: Option<string>, labels: Labels)

  /** The one pair of a holding's link hash. */
  datatype HoldingLink = HoldingLink(urlKey: Option<string>, labels: Labels)

  /** `solr_field_values` without its two special keys, and `holding_856s`. */
  datatype Collected = Collected(urls: Hash<Labels>, holdings: Hash<HoldingLink>)

  const NO_LINKS := Collected(NewHash(), NewHash())

  function AddLink(c: Collected, l: Link): Collected {
    if l.holdingId.Some? then
      c.(holdings := Put(c.holdings, l.holdingId.value, HoldingLink(l.urlKey, l.labels)))
    else if l.urlKey.Some? then c.(urls := Put(c.urls, l.urlKey.value, l.labels))
    else c
  }

  /** One pass over a list. */
  function AddLinks(c: Collected, links: seq<Link>): Collected
    decreases |links|
  {
    if links == [] then c else AddLink(AddLinks(c, links[..|links| - 1]), links[|links| - 1])
  }

  // ----- one pass is enough

  /** The two links write the same key. */
  predicate SameKey(l: Link, m: Link) {
    if l.holdingId.Some? || m.holdingId.Some? then l.holdingId == m.holdingId
    else l.urlKey.Some? && l.urlKey == m.urlKey
  }

  predicate HasKey(c: Collected, l: Link) {
    if l.holdingId.Some? then l.holdingId.value in c.holdings.at
    else l.urlKey.Some? ==> l.urlKey.value in c.urls.at
  }

  /** What a pass can still change: the values, not the keys nor their order. */
  predicate SameKeys(c: Collected, d: Collected) {
    && c.urls.keys == d.urls.keys && c.urls.at.Keys == d.urls.at.Keys
    && c.holdings.keys == d.holdings.keys && c.holdings.at.Keys == d.holdings.at.Keys
  }

  lemma AgainKeepsKeys(c: Collected, l: Link)
    requires HasKey(c, l)
    ensures SameKeys(AddLink(c, l), c)
  {
  }

  lemma {:induction false} AllHaveKeys(c: Collected, links: seq<Link>)
    ensures forall l :: l in links || HasKey(c, l) ==> HasKey(AddLinks(c, links), l)
    decreases |links|
  {
    if links != [] {
      assert links == links[..|links| - 1] + [links[|links| - 1]];
      AllHaveKeys(c, links[..|links| - 1]);
    }
  }

  lemma {:induction false} AgainAllKeepKeys(c: Collected, links: seq<Link>)
    requires forall l :: l in links ==> HasKey(c, l)
    ensures SameKeys(AddLinks(c, links), c)
    decreases |links|
  {
    if links != [] {
      var init, last := links[..|links| - 1], links[|links| - 1];
      assert links == init + [last];
      AgainAllKeepKeys(c, init);
      AgainKeepsKeys(AddLinks(c, init), last);
    }
  }

  /** The last of the links with this one's key, if any. */
  function LastFor(links: seq<Link>, key: Link): (r: Option<Link>)
    ensures r.Some? ==> r.value in links && SameKey(r.value, key)
    ensures r.None? ==> forall l :: l in links ==> !SameKey(l, key)
    decreases |links|
  {
    if links == [] then None
    else
      assert links == links[..|links| - 1] + [links[|links| - 1]];
      if SameKey(links[|links| - 1], key) then Some(links[|links| - 1])
      else LastFor(links[..|links| - 1], key)
  }

  function UrlProbe(url: string): Link { Link(None, Some(url), []) }

  function HoldingProbe(id: string): Link { Link(Some(id), None, []) }

  lemma {:induction false} LastWriteUrl(c: Collected, links: seq<Link>, url: string)
    ensures Lookup(AddLinks(c, links).urls, url) ==
            var last := LastFor(links, UrlProbe(url));
            if last.Some? then Some(last.value.labels) else Lookup(c.urls, url)
    decreases |links|
  {
    if links != [] { LastWriteUrl(c, links[..|links| - 1], url); }
  }

  lemma {:induction false} LastWriteHolding(c: Collected, links: seq<Link>, id: string)
    ensures Lookup(AddLinks(c, links).holdings, id) ==
            var last := LastFor(links, HoldingProbe(id));
            if last.Some? then Some(HoldingLink(last.value.urlKey, last.value.labels))
            else Lookup(c.holdings, id)
    decreases |links|
  {
    if links != [] { LastWriteHolding(c, links[..|links| - 1], id); }
  }

  lemma SameHash<V>(g: Hash<V>, h: Hash<V>)
    requires g.keys == h.keys && g.at.Keys == h.at.Keys && forall k :: Lookup(g, k) == Lookup(h, k)
    ensures g == h
  {
    forall k | k in g.at ensures g.at[k] == h.at[k] {
      assert Lookup(g, k) == Lookup(h, k);
    }
    assert g.at == h.at;
  }

  /** A second pass over the same links changes nothing: neither values nor the order of keys. */
  lemma SecondPassChangesNothing(links: seq<Link>)
    ensures var once := AddLinks(NO_LINKS, links); AddLinks(once, links) == once
  {
    var once := AddLinks(NO_LINKS, links);
    var twice := AddLinks(once, links);
    AllHaveKeys(NO_LINKS, links);
    AgainAllKeepKeys(once, links);
    forall k ensures Lookup(twice.urls, k) == Lookup(once.urls, k) {
      LastWriteUrl(NO_LINKS, links, k);
      LastWriteUrl(once, links, k);
    }
    forall k ensures Lookup(twice.holdings, k) == Lookup(once.holdings, k) {
      LastWriteHolding(NO_LINKS, links, k);
      LastWriteHolding(once, links, k);
    }
    SameHash(twice.urls, once.urls);
    SameHash(twice.holdings, once.holdings);
  }

  /** The whole list is put into the hashes after every 856; that is the same as one pass at the end. */
  method CollectLinks(fields: seq<Link>) returns (c: Collected)
    ensures c == AddLinks(NO_LINKS, fields)
  {
    var output: seq<Link> := [];
    c := NO_LINKS;
    for n := 0 to |fields|
      invariant output == fields[..n] && c == AddLinks(NO_LINKS, output)
    {
      ghost var before := c;
      ghost var done := output;
      output := output + [fields[n]];
      for m := 0 to |output|
        invariant c == AddLinks(before, output[..m])
      {
        c := AddLink(c, output[m]);
        assert output[..m + 1][..m] == output[..m];
      }
      assert output[..|output|] == output && output[..|output| - 1] == done;
      SecondPassChangesNothing(done);
    }
    assert fields[..|fields|] == fields;
  }

  /** What four links come to: by holding id if there is one, otherwise by url, the last one of each. */
  lemma LinksAsTheyRead(u: string, v: string, w: string, a: Labels, b: Labels, c: Labels, d: Labels)
    requires u != v
    ensures var links := [Link(Some("22"), Some(w), a), Link(None, Some(u), b), Link(None, Some(v), c),
                          Link(None, Some(u), d)];
            AddLinks(NO_LINKS, links) == Collected(
              Hash([u, v], map[u := d, v := c]), Hash(["22"], map["22" := HoldingLink(Some(w), a)]))
  {
    var l1, l2, l3, l4 := Link(Some("22"), Some(w), a), Link(None, Some(u), b), Link(None, Some(v), c),
                          Link(None, Some(u), d);
    LinkByLink(l1, l2, l3, l4);
    PutOne(HoldingLink(Some(w), a));
    PutThree(u, v, b, c, d);
    FourLinks(l1, l2, l3, l4);
  }

  lemma LinkByLink(l1: Link, l2: Link, l3: Link, l4: Link)
    ensures AddLinks(NO_LINKS, [l1, l2, l3, l4]) ==
            AddLink(AddLink(AddLink(AddLink(NO_LINKS, l1), l2), l3), l4)
  {
    OneMoreLink([], l1);
    OneMoreLink([l1], l2);
    OneMoreLink([l1, l2], l3);
    OneMoreLink([l1, l2, l3], l4);
    assert [] + [l1] == [l1] && [l1] + [l2] == [l1, l2] && [l1, l2] + [l3] == [l1, l2, l3];
    assert [l1, l2, l3] + [l4] == [l1, l2, l3, l4];
  }

  lemma FourLinks(l1: Link, l2: Link, l3: Link, l4: Link)
    requires l1.holdingId.Some? && l2.holdingId.None? && l3.holdingId.None? && l4.holdingId.None?
    requires l2.urlKey.Some? && l3.urlKey.Some? && l4.urlKey.Some?
    ensures AddLink(AddLink(AddLink(AddLink(NO_LINKS, l1), l2), l3), l4) == Collected(
              Put(Put(Put(NewHash(), l2.urlKey.value, l2.labels), l3.urlKey.value, l3.labels),
                  l4.urlKey.value, l4.labels),
              Put(NewHash(), l1.holdingId.value, HoldingLink(l1.urlKey, l1.labels)))
  {
  }

  lemma PutOne(link: HoldingLink)
    ensures Put(NewHash(), "22", link) == Hash(["22"], map["22" := link])
  {
    assert [] + ["22"] == ["22"];
  }

  lemma PutThree(u: string, v: string, b: Labels, c: Labels, d: Labels)
    requires u != v
    ensures Put(Put(Put(NewHash(), u, b), v, c), u, d) == Hash([u, v], map[u := d, v := c])
  {
    assert ([] + [u]) + [v] == [u, v];
    assert map[][u := b][v := c][u := d] == map[u := d, v := c];
  }

  lemma OneMoreLink(links: seq<Link>, l: Link)
    ensures AddLinks(NO_LINKS, links + [l]) == AddLink(AddLinks(NO_LINKS, links), l)
  {
    assert (links + [l])[..|links|] == links;
  }

  // ----- which links survive

  function UrlKeys(links: seq<Link>): seq<string>
    decreases |links|
  {
    if links == [] then []
    else
      var before, l := UrlKeys(links[..|links| - 1]), links[|links| - 1];
      if l.holdingId.None? && l.urlKey.Some? then before + [l.urlKey.value] else before
  }

  function HoldingKeys(links: seq<Link>): seq<string>
    decreases |links|
  {
    if links == [] then []
    else
      var before, l := HoldingKeys(links[..|links| - 1]), links[|links| - 1];
      if l.holdingId.Some? then before + [l.holdingId.value] else before
  }

  lemma UniqOneMore(keys: seq<string>, last: string)
    ensures Uniq(keys + [last]) == if last in keys then Uniq(keys) else Uniq(keys) + [last]
  {
    assert (keys + [last])[..|keys|] == keys;
  }

  lemma {:induction false} UrlsInOrder(links: seq<Link>)
    ensures var h := AddLinks(NO_LINKS, links).urls;
            h.keys == Uniq(UrlKeys(links)) && (forall k :: k in h.at <==> k in UrlKeys(links))
    decreases |links|
  {
    if links != [] {
      var l := links[|links| - 1];
      UrlsInOrder(links[..|links| - 1]);
      if l.holdingId.None? && l.urlKey.Some? { UniqOneMore(UrlKeys(links[..|links| - 1]), l.urlKey.value); }
    }
  }

  lemma {:induction false} HoldingsInOrder(links: seq<Link>)
    ensures var h := AddLinks(NO_LINKS, links).holdings;
            h.keys == Uniq(HoldingKeys(links)) && (forall k :: k in h.at <==> k in HoldingKeys(links))
    decreases |links|
  {
    if links != [] {
      var l := links[|links| - 1];
      HoldingsInOrder(links[..|links| - 1]);
      if l.holdingId.Some? { UniqOneMore(HoldingKeys(links[..|links| - 1]), l.holdingId.value); }
    }
  }

  /** The keys stand in the order of their first links. */
  lemma KeysInOrder(links: seq<Link>)
    ensures var c := AddLinks(NO_LINKS, links);
            && c.urls.keys == Uniq(UrlKeys(links)) && WellKeyed(c.urls)
            && c.holdings.keys == Uniq(HoldingKeys(links)) && WellKeyed(c.holdings)
  {
    UrlsInOrder(links);
    HoldingsInOrder(links);
  }

  /** The link's labels can be found where the link belongs. */
  predicate Kept(c: Collected, l: Link) {
    if l.holdingId.Some? then Lookup(c.holdings, l.holdingId.value) == Some(HoldingLink(l.urlKey, l.labels))
    else l.urlKey.Some? && Lookup(c.urls, l.urlKey.value) == Some(l.labels)
  }

  /** A link with neither a holding id nor a url, as every 856 with a malformed $u and no $0 gives, belongs
      nowhere. */
  predicate HasPlace(l: Link) {
    l.holdingId.Some? || l.urlKey.Some?
  }

  lemma LinkKept(links: seq<Link>, l: Link)
    requires l in links && HasPlace(l)
    ensures LastFor(links, l).Some?
    ensures var last := LastFor(links, l).value;
            Kept(AddLinks(NO_LINKS, links), l) <==>
              last.labels == l.labels && (l.holdingId.Some? ==> last.urlKey == l.urlKey)
  {
    assert SameKey(l, l);
    if l.holdingId.Some? {
      LastWriteHolding(NO_LINKS, links, l.holdingId.value);
      LastForSame(links, l, HoldingProbe(l.holdingId.value));
    } else {
      LastWriteUrl(NO_LINKS, links, l.urlKey.value);
      LastForSame(links, l, UrlProbe(l.urlKey.value));
    }
  }

  lemma {:induction false} LastForSame(links: seq<Link>, key: Link, other: Link)
    requires forall l :: SameKey(l, key) <==> SameKey(l, other)
    ensures LastFor(links, key) == LastFor(links, other)
    decreases |links|
  {
    if links != [] { LastForSame(links[..|links| - 1], key, other); }
  }

  /** Links that go to the same place say the same. */
  ghost predicate NoConflict(links: seq<Link>) {
    forall l, m :: l in links && m in links && SameKey(l, m) ==> l.labels == m.labels && l.urlKey == m.urlKey
  }

  /** No link is lost if and only if every link has a place, no holding has two different links, and no url
      two different label lists. */
  lemma NoLinkLostIffNoConflict(links: seq<Link>)
    ensures (forall l :: l in links ==> Kept(AddLinks(NO_LINKS, links), l))
            <==> NoConflict(links) && forall l :: l in links ==> HasPlace(l)
  {
    var c := AddLinks(NO_LINKS, links);
    forall l | l in links && NoConflict(links) && HasPlace(l) ensures Kept(c, l) {
      LinkKept(links, l);
    }
  }

  lemma {:induction false} AddLinksAppend(c: Collected, a: seq<Link>, b: seq<Link>)
    ensures AddLinks(c, a + b) == AddLinks(AddLinks(c, a), b)
    decreases |b|
  {
    if b == [] {
      assert a + b == a;
    } else {
      assert (a + b)[..|a + b| - 1] == a + b[..|b| - 1];
      AddLinksAppend(c, a, b[..|b| - 1]);
    }
  }

  /** A link without a place leaves no trace, wherever it stands in the list. */
  lemma LinkWithoutPlaceVanishes(before: seq<Link>, l: Link, after: seq<Link>)
    requires !HasPlace(l)
    ensures AddLinks(NO_LINKS, before + ([l] + after)) == AddLinks(NO_LINKS, before + after)
    ensures !Kept(AddLinks(NO_LINKS, before + ([l] + after)), l)
  {
    var c := AddLinks(NO_LINKS, before);
    AddLinksAppend(NO_LINKS, before, [l] + after);
    AddLinksAppend(c, [l], after);
    AddLinksAppend(NO_LINKS, before, after);
    assert [l][..0] == [];
  }

  /** Two links of one holding: the first is lost. */
  lemma SecondHoldingLinkReplacesFirst()
    ensures var first, second := Link(Some("22"), Some("http://a"), []),
            Link(Some("22"), Some("http://b"), []);
            !Kept(AddLinks(NO_LINKS, [first, second]), first)
  {
    var first, second := Link(Some("22"), Some("http://a"), []), Link(Some("22"), Some("http://b"), []);
    LinkKept([first, second], first);
    assert "http://a"[7] != "http://b"[7];
  }

  // ----- the move into holdings_1display

  /** A holding as it was written out, with the link added to it. */
  datatype JsonHolding = JsonHolding(body: string, electronicAccess: Option<HoldingLink>)

  /** The two output fields that the move rewrites. The key for holding links is absent when there are none. */
  class OutputHash {
    var electronicAccess: Option<Collected>
    var holdings: Option<Hash<JsonHolding>>

    constructor (electronicAccess: Option<Collected>, holdings: Option<Hash<JsonHolding>>)
      ensures this.electronicAccess == electronicAccess && this.holdings == holdings
    {
      this.electronicAccess, this.holdings := electronicAccess, holdings;
    }

    /** False when a holding with links, or the whole field, is missing: the program raises then, and has
        changed nothing. */
    method MoveHoldingLinks() returns (ok: bool)
      requires electronicAccess.Some? ==> WellKeyed(electronicAccess.value.holdings)
      modifies this
      ensures ok <==> CanMove(old(electronicAccess), old(holdings))
      ensures if ok && HasHoldingLinks(old(electronicAccess)) then
                && electronicAccess == Some(old(electronicAccess).value.(holdings := NewHash()))
                && holdings.Some?
                && Moved(old(holdings).value, old(electronicAccess).value.holdings, holdings.value)
              else electronicAccess == old(electronicAccess) && holdings == old(holdings)
    {
      if electronicAccess.None? || electronicAccess.value.holdings.keys == [] { return true; }
      var links := electronicAccess.value.holdings;
      if holdings.None? { return false; }
      var moved := holdings.value;
      for n := 0 to |links.keys|
        invariant forall m :: 0 <= m < n ==> links.keys[m] in holdings.value.at
        invariant MovedSome(holdings.value, links, links.keys[..n], moved)
      {
        var id := links.keys[n];
        if id !in moved.at { return false; }
        assert id in links.at;
        moved := Put(moved, id, moved.at[id].(electronicAccess := Some(links.at[id])));
        assert links.keys[..n + 1] == links.keys[..n] + [id];
      }
      assert links.keys[..|links.keys|] == links.keys;
      holdings := Some(moved);
      electronicAccess := Some(electronicAccess.value.(holdings := NewHash()));
      ok := true;
    }
  }

  predicate HasHoldingLinks(electronicAccess: Option<Collected>) {
    electronicAccess.Some? && electronicAccess.value.holdings.keys != []
  }

  predicate CanMove(electronicAccess: Option<Collected>, holdings: Option<Hash<JsonHolding>>) {
    HasHoldingLinks(electronicAccess) ==>
      && holdings.Some?
      && forall id :: id in electronicAccess.value.holdings.keys ==> id in holdings.value.at
  }

  /** The holdings named in `ids` have got their links; nothing else is different. */
  ghost predicate MovedSome(
    before: Hash<JsonHolding>, links: Hash<HoldingLink>, ids: seq<string>, after: Hash<JsonHolding>)
  {
    && after.keys == before.keys && after.at.Keys == before.at.Keys
    && forall id :: id in before.at ==>
         after.at[id] ==
           if id in ids && id in links.at then before.at[id].(electronicAccess := Some(links.at[id]))
                         else before.at[id]
  }

  ghost predicate Moved(before: Hash<JsonHolding>, links: Hash<HoldingLink>, after: Hash<JsonHolding>) {
    MovedSome(before, links, links.keys, after)
  }

  /** From the 856 fields to the holdings: after the move a link of a holding is in that holding if and only
      if no later link replaced it, and holdings without links are as they were. */
  lemma HoldingLinksArrive(links: seq<Link>, before: Hash<JsonHolding>, after: Hash<JsonHolding>)
    requires CanMove(Some(AddLinks(NO_LINKS, links)), Some(before))
    requires Moved(before, AddLinks(NO_LINKS, links).holdings, after)
    ensures forall l :: l in links && l.holdingId.Some? ==>
              && l.holdingId.value in after.at
              && (after.at[l.holdingId.value].electronicAccess == Some(HoldingLink(l.urlKey, l.labels))
                  <==> Kept(AddLinks(NO_LINKS, links), l))
    ensures forall id :: id in before.at && (forall l :: l in links ==> l.holdingId != Some(id)) ==>
            after.at[id] == before.at[id]
  {
    var c := AddLinks(NO_LINKS, links);
    KeysInOrder(links);
    forall l | l in links && l.holdingId.Some?
      ensures l.holdingId.value in after.at
      ensures after.at[l.holdingId.value].electronicAccess == Some(HoldingLink(l.urlKey, l.labels)) <==>
              Kept(c, l)
    {
      LinkKept(links, l);
      AllHaveKeys(NO_LINKS, links);
      assert HasKey(c, l);
    }
    forall id | id in before.at && (forall l :: l in links ==> l.holdingId != Some(id))
      ensures after.at[id] == before.at[id]
    {
      LastWriteHolding(NO_LINKS, links, id);
      assert Lookup(c.holdings, id) == None;
    }
  }
}
