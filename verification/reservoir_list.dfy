/** `Classes/APIBots/ReservoirListBot.js`: the watermark that decides which
    listings of a polled batch are new, and the pure part of building a
    listing's message (token id, token URL, marketplace, ban check).
    `Date.parse` is a partial function parameter (`None` is NaN); the ban set,
    the metadata fetch and the Discord embed are outside the model. */
module ReservoirList {
  import opened Common
  import opened Strings

  /** The fields of a Reservoir ask the bot reads. */
  datatype Order = Order(
    createdAt: string,
    tokenSetId: string,
    contract: string,
    price: string,
    maker: string,
    sourceName: string)

  // ---------------------------------------------------------------------
  // The watermark

  /** `maxTime` after the loop: 0, raised to every parsed time of the batch.
      A NaN time compares false both ways and is skipped. */
  function BatchMax(orders: seq<Order>, parse: string -> Option<int>): (m: int)
    ensures m >= 0
    ensures forall i :: 0 <= i < |orders| && parse(orders[i].createdAt).Some? ==> parse(orders[i].createdAt).value <= m
    ensures m == 0 || exists i :: 0 <= i < |orders| && parse(orders[i].createdAt) == Some(m)
    decreases |orders|
  {
    if orders == [] then 0
    else
      var front := orders[..|orders| - 1];
      var m := BatchMax(front, parse);
      assert forall i :: 0 <= i < |front| ==> front[i] == orders[i];
      match parse(orders[|orders| - 1].createdAt)
      case None => m
      case Some(t) => if m < t then t else m
  }

  /** The order's time parses and is strictly after the watermark `w`. */
  function Newer(w: int, parse: string -> Option<int>): Order -> bool {
    (o: Order) => parse(o.createdAt).Some? && w < parse(o.createdAt).value
  }

  /** The orders handed to `buildDiscordMessage`: those strictly newer than
      the watermark held before the batch, in batch order. */
  function Forwarded(w: int, orders: seq<Order>, parse: string -> Option<int>): (sent: seq<Order>)
    ensures |sent| <= |orders|
    ensures forall i :: 0 <= i < |sent| ==> sent[i] in orders && parse(sent[i].createdAt).Some? && w < parse(sent[i].createdAt).value
    ensures forall i :: 0 <= i < |orders| ==> (orders[i] in sent <==> parse(orders[i].createdAt).Some? && w < parse(orders[i].createdAt).value)
    ensures forall o :: multiset(sent)[o] == if Newer(w, parse)(o) then multiset(orders)[o] else 0
    ensures KeptInOrder(Newer(w, parse), orders, sent)
  {
    FilterCounts(Newer(w, parse), orders);
    var kept := FilterIndexes(Newer(w, parse), orders);
    Filter(Newer(w, parse), orders)
  }

  /** The watermark after the batch: raised to the batch maximum when that
      is larger, once, after the loop. */
  function Advance(w: int, orders: seq<Order>, parse: string -> Option<int>): (next: int)
    ensures next >= w && next >= BatchMax(orders, parse)
    ensures next == w || next == BatchMax(orders, parse)
  {
    var m := BatchMax(orders, parse);
    if m > w then m else w
  }

  /** `handleAPIResponse`: one pass over the batch, forwarding against the
      watermark held at the start and raising it afterwards. */
  method HandleAPIResponse(watermark: int, orders: seq<Order>, parse: string -> Option<int>) returns (sent: seq<Order>, next: int)
    ensures sent == Forwarded(watermark, orders, parse)
    ensures next == Advance(watermark, orders, parse)
    ensures forall i, j :: 0 <= i < |orders| && 0 <= j < |orders| && parse(orders[i].createdAt) == parse(orders[j].createdAt) ==>
      (orders[i] in sent <==> orders[j] in sent)
  {
    var maxTime := 0;
    sent := [];
    var i := 0;
    while i < |orders|
      invariant 0 <= i <= |orders|
      invariant sent == Filter(Newer(watermark, parse), orders[..i])
      invariant maxTime == BatchMax(orders[..i], parse)
    {
      var eventTime := parse(orders[i].createdAt);
      ForwardStep(watermark, orders, i, parse);
      MaxStep(orders, i, parse);
      if eventTime.Some? && watermark < eventTime.value {
        sent := sent + [orders[i]];
      }
      if eventTime.Some? && maxTime < eventTime.value {
        maxTime := eventTime.value;
      }
      i := i + 1;
    }
    assert orders[..i] == orders;
    next := if maxTime > watermark then maxTime else watermark;
  }

  lemma ForwardStep(w: int, orders: seq<Order>, i: nat, parse: string -> Option<int>)
    requires i < |orders|
    ensures Filter(Newer(w, parse), orders[..i + 1])
      == Filter(Newer(w, parse), orders[..i]) + if Newer(w, parse)(orders[i]) then [orders[i]] else []
  {
    FilterAppend(Newer(w, parse), orders[..i], [orders[i]]);
    assert orders[..i + 1] == orders[..i] + [orders[i]];
  }

  lemma MaxStep(orders: seq<Order>, i: nat, parse: string -> Option<int>)
    requires i < |orders|
    ensures var m := BatchMax(orders[..i], parse);
      var t := parse(orders[i].createdAt);
      BatchMax(orders[..i + 1], parse) == if t.Some? && m < t.value then t.value else m
  {
    assert orders[..i + 1][..i] == orders[..i];
  }

  /** Handling the same batch again right after forwards nothing and leaves
      the watermark where it is. */
  lemma ReplayForwardsNothing(w: int, orders: seq<Order>, parse: string -> Option<int>)
    ensures Forwarded(Advance(w, orders, parse), orders, parse) == []
    ensures Advance(Advance(w, orders, parse), orders, parse) == Advance(w, orders, parse)
  {
    FilterDropsAll(Newer(Advance(w, orders, parse), parse), orders);
  }

  /** A batch with nothing newer than a non-negative watermark (an empty
      batch in particular) forwards nothing and leaves the watermark as it
      was. A negative watermark is raised to 0 even by an empty batch,
      because `maxTime` starts at 0. */
  lemma StaleBatchChangesNothing(w: int, orders: seq<Order>, parse: string -> Option<int>)
    requires w >= 0
    requires forall i :: 0 <= i < |orders| && parse(orders[i].createdAt).Some? ==> parse(orders[i].createdAt).value <= w
    ensures Forwarded(w, orders, parse) == []
    ensures Advance(w, orders, parse) == w
  {
    FilterDropsAll(Newer(w, parse), orders);
  }

  lemma {:induction false} BatchMaxAppend(a: seq<Order>, b: seq<Order>, parse: string -> Option<int>)
    ensures BatchMax(a + b, parse) == if BatchMax(a, parse) < BatchMax(b, parse) then BatchMax(b, parse) else BatchMax(a, parse)
    decreases |b|
  {
    if b == [] {
      assert a + b == a;
    } else {
      var b' := b[..|b| - 1];
      assert (a + b)[..|a + b| - 1] == a + b';
      assert (a + b)[|a + b| - 1] == b[|b| - 1];
      BatchMaxAppend(a, b', parse);
    }
  }

  /** An order whose time does not parse changes neither what is forwarded
      nor the watermark, wherever it sits in the batch. */
  lemma UnparsableOrderIgnored(w: int, a: seq<Order>, o: Order, b: seq<Order>, parse: string -> Option<int>)
    requires parse(o.createdAt).None?
    ensures Forwarded(w, a + [o] + b, parse) == Forwarded(w, a + b, parse)
    ensures Advance(w, a + [o] + b, parse) == Advance(w, a + b, parse)
  {
    UnparsableNotForwarded(w, a, o, b, parse);
    UnparsableNotCounted(a, o, b, parse);
  }

  lemma UnparsableNotForwarded(w: int, a: seq<Order>, o: Order, b: seq<Order>, parse: string -> Option<int>)
    requires parse(o.createdAt).None?
    ensures Filter(Newer(w, parse), a + [o] + b) == Filter(Newer(w, parse), a + b)
  {
    var p := Newer(w, parse);
    var ao := a + [o];
    FilterAppend(p, a, [o]);
    assert Filter(p, [o]) == [];
    assert Filter(p, ao) == Filter(p, a);
    FilterAppend(p, ao, b);
    FilterAppend(p, a, b);
  }

  lemma UnparsableNotCounted(a: seq<Order>, o: Order, b: seq<Order>, parse: string -> Option<int>)
    requires parse(o.createdAt).None?
    ensures BatchMax(a + [o] + b, parse) == BatchMax(a + b, parse)
  {
    var ao := a + [o];
    assert ao[..|ao| - 1] == a;
    assert BatchMax(ao, parse) == BatchMax(a, parse);
    BatchMaxAppend(ao, b, parse);
    BatchMaxAppend(a, b, parse);
  }

  // ---------------------------------------------------------------------
  // Successive polls

  /** The watermark after handling the batches in order. */
  function WatermarkAfter(w: int, batches: seq<seq<Order>>, parse: string -> Option<int>): int
    decreases |batches|
  {
    if batches == [] then w
    else Advance(WatermarkAfter(w, batches[..|batches| - 1], parse), batches[|batches| - 1], parse)
  }

  lemma {:induction false} WatermarkGrows(w: int, batches: seq<seq<Order>>, i: nat, j: nat, parse: string -> Option<int>)
    requires i <= j <= |batches|
    ensures WatermarkAfter(w, batches[..i], parse) <= WatermarkAfter(w, batches[..j], parse)
    decreases j - i
  {
    if i < j {
      WatermarkGrows(w, batches, i, j - 1, parse);
      assert batches[..j][..j - 1] == batches[..j - 1];
    }
  }

  /** Across successive polls, an order seen in one batch (with a parsable
      time) is never forwarded again by a later poll: a listing that keeps
      appearing in the API's window is announced at most once. */
  lemma SeenNeverResent(w: int, batches: seq<seq<Order>>, i: nat, j: nat, parse: string -> Option<int>)
    requires i < j < |batches|
    ensures forall o :: o in batches[i] && parse(o.createdAt).Some? ==>
      o !in Forwarded(WatermarkAfter(w, batches[..j], parse), batches[j], parse)
  {
    assert batches[..i + 1][..i] == batches[..i];
    WatermarkGrows(w, batches, i + 1, j, parse);
    var wj := WatermarkAfter(w, batches[..j], parse);
    forall o | o in batches[i] && parse(o.createdAt).Some?
      ensures o !in Forwarded(wj, batches[j], parse)
    {
      var k :| 0 <= k < |batches[i]| && batches[i][k] == o;
      assert parse(o.createdAt).value <= wj;
    }
  }

  // ---------------------------------------------------------------------
  // Building a listing message

  /** Where the message title links to. */
  datatype Market = OpenSea | LooksRare | X2Y2 | ArtBlocksPage

  /** What `buildDiscordMessage` does with an order: skip a banned maker,
      or announce the token with these links. */
  datatype Plan =
    | Banned
    | Announce(tokenId: string, tokenUrl: string, sellerProfile: string, market: Market)

  /** `msg.tokenSetId.split(':')[2]` */
  function TokenId(tokenSetId: string): string {
    Field(Split(tokenSetId, ':'), 2)
  }

  const TokenHost: string := "https://token.artblocks.io/"
  const ProfileBase: string := "https://www.artblocks.io/user/"

  /** The metadata URL: without the contract segment when the bot was
      built with the default contract `''`. */
  function TokenUrl(contract: string, tokenId: string): string {
    if contract == "" then TokenHost + tokenId else TokenHost + contract + "/" + tokenId
  }

  /** The `switch (platform.toLowerCase())`. */
  function MarketOf(sourceName: string): (m: Market)
    ensures m == OpenSea <==> ToLower(sourceName) == "opensea"
    ensures m == LooksRare <==> ToLower(sourceName) == "looksrare"
    ensures m == X2Y2 <==> ToLower(sourceName) == "x2y2"
  {
    var p := ToLower(sourceName);
    if p == "opensea" then OpenSea
    else if p == "looksrare" then LooksRare
    else if p == "x2y2" then X2Y2
    else ArtBlocksPage
  }

  function PlanListing(o: Order, contract: string, banned: set<string>): (p: Plan)
    ensures p.Banned? <==> o.maker in banned
    ensures p.Announce? ==> |p.sellerProfile| >= |ProfileBase| && p.sellerProfile[..|ProfileBase|] == ProfileBase && p.sellerProfile[|ProfileBase|..] == o.maker
    ensures p.Announce? ==> p.tokenId == TokenId(o.tokenSetId) && p.tokenUrl == TokenUrl(contract, p.tokenId)
    ensures p.Announce? ==> p.market == MarketOf(o.sourceName)
  {
    if o.maker in banned then Banned
    else
      var id := TokenId(o.tokenSetId);
      Announce(id, TokenUrl(contract, id), ProfileBase + o.maker, MarketOf(o.sourceName))
  }

  /** A token set id `token:<contract>:<id>` yields the id. */
  lemma TokenIdOfSetId(kind: string, c: string, id: string)
    requires ':' !in kind && ':' !in c && ':' !in id
    ensures TokenId(kind + ":" + c + ":" + id) == id
  {
    SplitThree(kind, c, id, ':');
  }

  /** The token URL can be read back: after the host comes the contract
      segment when one was configured, then the id. */
  lemma TokenUrlReadsBack(contract: string, id: string)
    requires '/' !in contract && '/' !in id
    ensures TokenUrl(contract, id)[..|TokenHost|] == TokenHost
    ensures contract == "" ==> Split(TokenUrl(contract, id)[|TokenHost|..], '/') == [id]
    ensures contract != "" ==> Split(TokenUrl(contract, id)[|TokenHost|..], '/') == [contract, id]
  {
    var rest := TokenUrl(contract, id)[|TokenHost|..];
    if contract == "" {
      assert rest == id;
      SplitJoin([id], '/');
    } else {
      assert rest == contract + "/" + id;
      assert [contract, id][1..] == [id];
      SplitJoin([contract, id], '/');
    }
  }

  /** The marketplace is matched without regard to case. */
  lemma MarketOfMixedCase()
    ensures MarketOf("OpenSea") == OpenSea
  {
    var s := "OpenSea";
    var l := ToLower(s);
    assert l[0] == 'o';
    assert l[4] == 's';
    forall i | 0 <= i < |s| && i != 0 && i != 4
      ensures l[i] == s[i]
    {
      assert !IsUpper(s[i]);
    }
    assert l == "opensea";
  }
}
