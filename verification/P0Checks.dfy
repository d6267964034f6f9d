/** The repository's own P0 consistency checks, read as predicates over the rows, and the proof that every
    reachable state passes all of them together. */
module P0Checks {
  import opened Wrappers
  import opened BidRules
  import opened AuctionState
  import opened Transactions
  import opened Invariants

  // ---- The checks -------------------------------------------------------------------

  ghost predicate EventAt(events: seq<Event>, n: nat) {
    exists e :: e in events && e.seqNo == n
  }

  ghost predicate SeqMatchesEvents(w: World) {
    && (forall e :: e in w.events ==> e.seqNo <= w.auction.seqNo)
    && (w.auction.seqNo > 0 ==> EventAt(w.events, w.auction.seqNo))
  }

  ghost predicate SeqContiguous(w: World) {
    forall n :: 1 <= n <= w.auction.seqNo ==> EventAt(w.events, n)
  }

  predicate IsTerminalKind(kind: EventKind) {
    kind in {EventKind.AuctionSold, EventKind.AuctionEnded, EventKind.AuctionCancelled}
  }

  ghost predicate SingleTerminalEvent(w: World) {
    forall i, j :: 0 <= i < j < |w.events| ==> !IsTerminalKind(w.events[i].kind) || !IsTerminalKind(w.events[j].kind)
  }

  ghost predicate HasEvent(w: World, kind: EventKind) {
    exists i :: 0 <= i < |w.events| && w.events[i].kind == kind
  }

  ghost predicate TerminalStatusMatchesEvent(w: World) {
    && (HasEvent(w, EventKind.AuctionSold) <==> w.auction.status == Sold)
    && (HasEvent(w, EventKind.AuctionEnded) <==> w.auction.status == Ended)
    && (HasEvent(w, EventKind.AuctionCancelled) <==> w.auction.status == Cancelled)
  }

  ghost predicate AcceptedCountMatches(w: World) {
    |set i | 0 <= i < |w.bids| && w.bids[i].accepted| == w.auction.acceptedCount
  }

  /** The latest accepted bid, and at the same time the highest: the projection trigger's reading. */
  ghost predicate IsLatestAccepted(bids: seq<BidRow>, b: BidRow) {
    && b in bids && b.accepted && b.seqNo.Some?
    && forall c :: c in bids && c.accepted ==>
         c.seqNo.Some? && c.seqNo.value <= b.seqNo.value && c.amount <= b.amount
  }

  ghost predicate WinnerMatchesLatestBid(w: World) {
    if w.auction.acceptedCount == 0 then w.auction.winner.None? && w.auction.price == w.auction.rules.start
    else exists b :: IsLatestAccepted(w.bids, b) && w.auction.winner == Some(b.user) && w.auction.price == b.amount
  }

  ghost predicate SoldOrderMatches(w: World) {
    w.auction.status == Sold ==>
      |w.orders| == 1 && w.auction.winner == Some(w.orders[0].winner) && w.auction.price == w.orders[0].amount
  }

  ghost predicate NoOrderLeak(w: World) {
    w.auction.status != Sold ==> w.orders == []
  }

  ghost predicate OutboxMirrorsEvents(w: World) {
    && (forall e :: e in w.events <==> e in w.outbox)
    && (forall i, j :: 0 <= i < j < |w.outbox| ==> w.outbox[i].seqNo != w.outbox[j].seqNo)
  }

  ghost predicate P0(w: World) {
    && SeqMatchesEvents(w) && SeqContiguous(w)
    && SingleTerminalEvent(w) && TerminalStatusMatchesEvent(w)
    && AcceptedCountMatches(w) && WinnerMatchesLatestBid(w)
    && SoldOrderMatches(w) && NoOrderLeak(w)
    && OutboxMirrorsEvents(w)
  }

  // ---- From the invariant to the checks ---------------------------------------------

  lemma {:induction false} CountTells(events: seq<Event>, kind: EventKind)
    ensures CountKind(events, kind) > 0 <==> exists i :: 0 <= i < |events| && events[i].kind == kind
    ensures CountKind(events, kind) <= 1 ==>
      forall i, j :: 0 <= i < j < |events| ==> events[i].kind != kind || events[j].kind != kind
  {
    if events != [] {
      var front := events[..|events| - 1];
      CountTells(front, kind);
      assert forall i :: 0 <= i < |front| ==> events[i] == front[i];
      if CountKind(events, kind) > 0 && events[|events| - 1].kind != kind {
        var i :| 0 <= i < |front| && front[i].kind == kind;
        assert events[i].kind == kind;
      }
    }
  }

  lemma {:induction false} AcceptedRowsTell(bids: seq<BidRow>)
    ensures forall b :: b in AcceptedRows(bids) <==> b in bids && b.accepted
    ensures |set i | 0 <= i < |bids| && bids[i].accepted| == |AcceptedRows(bids)|
  {
    if bids != [] {
      var front, n := bids[..|bids| - 1], |bids| - 1;
      assert bids == front + [bids[n]];
      AcceptedRowsTell(front);
      var all := set i | 0 <= i < |bids| && bids[i].accepted;
      var most := set i | 0 <= i < |front| && front[i].accepted;
      if bids[n].accepted { assert all == most + {n}; } else { assert all == most; }
    }
  }

  lemma LogPassesChecks(w: World)
    requires LogInv(w)
    ensures SeqMatchesEvents(w) && SeqContiguous(w) && OutboxMirrorsEvents(w)
  {
    forall n | 1 <= n <= w.auction.seqNo ensures EventAt(w.events, n) {
      assert w.events[n - 1] in w.events;
    }
  }

  lemma TerminalsPassChecks(w: World)
    requires LogInv(w)
    ensures SingleTerminalEvent(w) && TerminalStatusMatchesEvent(w)
  {
    CountTells(w.events, EventKind.AuctionSold);
    CountTells(w.events, EventKind.AuctionEnded);
    CountTells(w.events, EventKind.AuctionCancelled);
    forall i, j | 0 <= i < j < |w.events| && IsTerminalKind(w.events[i].kind)
      ensures !IsTerminalKind(w.events[j].kind)
    {
      CountTells(w.events, w.events[i].kind);
      CountTells(w.events, w.events[j].kind);
      assert CountKind(w.events, w.events[i].kind) > 0;
    }
  }

  lemma LastRowIsLatest(bids: seq<BidRow>, a: Auction)
    requires BidInv(bids, a) && AcceptedRows(bids) != []
    ensures IsLatestAccepted(bids, AcceptedRows(bids)[|AcceptedRows(bids)| - 1])
  {
    AcceptedRowsTell(bids);
    var rows := AcceptedRows(bids);
    var last := rows[|rows| - 1];
    assert last in rows;
    forall c | c in bids && c.accepted
      ensures c.seqNo.Some? && c.seqNo.value <= last.seqNo.value && c.amount <= last.amount
    {
      assert c in rows;
      var i :| 0 <= i < |rows| && rows[i] == c;
    }
  }

  lemma BidsPassChecks(w: World)
    requires RowInv(w.auction) && BidInv(w.bids, w.auction)
    ensures AcceptedCountMatches(w) && WinnerMatchesLatestBid(w)
  {
    AcceptedRowsTell(w.bids);
    if AcceptedRows(w.bids) != [] {
      LastRowIsLatest(w.bids, w.auction);
    }
  }

  lemma CorePassesP0(w: World)
    requires CoreInv(w)
    ensures P0(w)
  {
    LogPassesChecks(w);
    TerminalsPassChecks(w);
    BidsPassChecks(w);
  }

  /** Every state any interleaving of transactions can reach passes every P0 check. */
  lemma ReachablePassesP0(rules: Rules, steps: seq<Step>)
    requires CreateAuction(rules).Ok?
    ensures P0(Run(CreateAuction(rules).value, steps))
  {
    CreateEstablishesCore(rules);
    RunKeepsCore(CreateAuction(rules).value, steps);
    CorePassesP0(Run(CreateAuction(rules).value, steps));
  }
}
