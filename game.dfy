/**
 * The PokerGame class of backend/models/poker_game.py: the per-round state that
 * its methods update in place, and the round and match loops.
 *
 * Each method that changes the table is proved against the Betting functions
 * (`ApplyMove`, `ForcedBet`, `ActiveSeats`), so the lemmas proved there apply to
 * the object. Python exceptions become a `Failed` outcome; where the source has
 * already changed some state before raising, the model makes the same changes.
 */
module Game {
  import opened Util
  import opened Cards
  import opened Moves
  import opened HandEval
  import opened Winners
  import opened Betting

  /** GameStatistics: names, rounds played, the winner of each round, per-seat gains. */
  datatype GameStatistics = GameStatistics(
    playerNames: seq<string>,
    numRounds: int,
    winners: seq<nat>,
    moneyGained: map<nat, seq<int>>)

  /** The exceptions the engine can raise. */
  datatype Failure =
    | NotForcedToBet(seat: nat)       // handle_forced_bet on a seat that is neither blind (ValueError)
    | UnknownPlayer(seat: nat)        // player_names[seat] for a seat id with no player (KeyError)
    | DeckExhausted                   // pop(0) from an empty deck (IndexError)
    | NoMoveMade(seat: nat)           // `valid` read before assignment when tries_per_move <= 0
    | NoCardsToEvaluate               // get_best_hand on an empty card list (IndexError)
    | NoShownHand                     // max() of an empty list in get_winner (ValueError)
    | TiedWinnerIndex                 // the list of tied positions used as an index (TypeError)
    | MissingGainsEntry(seat: nat)    // money_gained[seat] was never created (KeyError)

  datatype Outcome = Done | Failed(failure: Failure)

  /**
   * The player behind a seat: the move given for the n-th request to seat s. The
   * game description and the error text passed to make_move are not modelled
   * (the error text is reset to "" before every attempt).
   */
  type MoveSource = (nat, nat) -> Move

  /** The starting stack when no money list is given. */
  const DEFAULT_MONEY: int := 100

  function StartingMoney(money: seq<int>, i: nat): int {
    if money == [] || i >= |money| then DEFAULT_MONEY else money[i]
  }

  /** Every active seat shown has at least one card to evaluate. */
  predicate AllShown(seats: seq<PlayerState>, community: seq<Card>, show: seq<nat>)
    requires forall k :: 0 <= k < |show| ==> show[k] < |seats|
  {
    forall k :: 0 <= k < |show| ==> |seats[show[k]].hand + community| > 0
  }

  /** The shown card lists evaluated in order; None when get_best_hand meets an empty list. */
  function ShownHands(seats: seq<PlayerState>, community: seq<Card>, show: seq<nat>): (r: Option<seq<Hand>>)
    requires forall k :: 0 <= k < |show| ==> show[k] < |seats|
    ensures r.Some? <==> AllShown(seats, community, show)
    ensures r.Some? ==> |r.value| == |show|
    ensures r.Some? ==> forall k :: 0 <= k < |show| ==> r.value[k] == BestHand(seats[show[k]].hand + community)
  {
    if AllShown(seats, community, show) then
      Some(seq(|show|, k requires 0 <= k < |show| && AllShown(seats, community, show) =>
        BestHand(seats[show[k]].hand + community)))
    else None
  }

  /** The position get_winner picks among the active seats, or the exception showdown raises first. */
  function ShowdownWinner(seats: seq<PlayerState>, community: seq<Card>): (r: Result<nat, Failure>)
    requires |seats| > 0
    ensures r.Ok? ==> r.value < |ActiveSeats(seats, 0)|
    ensures r.Err? ==> r.error in {NoCardsToEvaluate, NoShownHand, TiedWinnerIndex}
  {
    var show := ActiveSeats(seats, 0);
    match ShownHands(seats, community, show)
    case None => Err(NoCardsToEvaluate)
    case Some(hands) =>
      match GetWinner(hands)
      case None => Err(NoShownHand)
      case Some(Split(_)) => Err(TiedWinnerIndex)
      case Some(Single(p)) =>
        GetWinnerFindsTopHands(hands);
        Ok(p)
  }

  /**
   * The pot goes to the best hand's POSITION among the active seats, used as a
   * seat id: when seat 0 has folded and the first active seat holds the best
   * hand, seat 0 is paid.
   */
  lemma ShowdownPaysPosition(seats: seq<PlayerState>, community: seq<Card>, pot: int)
    requires |seats| > 0
    ensures ShowdownWinner(seats, community).Ok? ==>
      var p := ShowdownWinner(seats, community).value;
      var show := ActiveSeats(seats, 0);
      && ShownHands(seats, community, show).Some?
      && IsTopHand(ShownHands(seats, community, show).value, p)
      && (forall j :: IsTopHand(ShownHands(seats, community, show).value, j) ==> j == p)
      && show[p] < |seats| && seats[show[p]].isActive
      && (!seats[0].isActive && p == 0 ==> show[p] != p)
      && p < |seats| && Paid(seats, p, pot)[p].money == seats[p].money + pot
      && (show[p] != p ==> Paid(seats, p, pot)[show[p]] == seats[show[p]])
  {
    var show := ActiveSeats(seats, 0);
    if ShowdownWinner(seats, community).Ok? {
      GetWinnerFindsTopHands(ShownHands(seats, community, show).value);
    }
  }

  /** The showdown reads only the hands and which seats are active, not the stacks or the bets. */
  lemma ShowdownWinnerReadsHands(a: seq<PlayerState>, b: seq<PlayerState>, community: seq<Card>)
    requires 0 < |a| == |b|
    requires forall i :: 0 <= i < |a| ==> a[i].hand == b[i].hand && a[i].isActive == b[i].isActive
    ensures ShowdownWinner(a, community) == ShowdownWinner(b, community)
  {
    ActiveScanReadsActivity(a, b, 0, 0);
    var show := ActiveSeats(a, 0);
    assert AllShown(a, community, show) == AllShown(b, community, show);
    if AllShown(a, community, show) {
      var ha, hb := ShownHands(a, community, show).value, ShownHands(b, community, show).value;
      assert forall k :: 0 <= k < |ha| ==> ha[k] == hb[k];
      assert ha == hb;
    }
  }

  /**
   * What showdown does to the seats and the statistics: when ShowdownWinner raises, nothing
   * changes and the exception is reported; otherwise the winner's position takes the pot and
   * the statistics record the round.
   */
  function ShowdownResult(seats: seq<PlayerState>, community: seq<Card>, pot: int, stats: GameStatistics)
    : (r: (seq<PlayerState>, GameStatistics, Outcome))
    requires |seats| > 0
    ensures |r.0| == |seats|
  {
    match ShowdownWinner(seats, community)
    case Err(e) => (seats, stats, Failed(e))
    case Ok(w) =>
      var after := Paid(seats, w, pot);
      var gained := RecordedGains(stats.moneyGained, after, pot, w);
      (after, stats.(winners := stats.winners + [w], moneyGained := gained.0), gained.1)
  }

  /**
   * After showdown the hands and the showdown's result are as before, the winner is paid
   * exactly the pot, an exception changes nothing, and the statistics record the round as
   * ShowdownRecord says of the seats showdown leaves.
   */
  lemma ShowdownResultRecords(seats: seq<PlayerState>, community: seq<Card>, pot: int, stats: GameStatistics)
    requires |seats| > 0
    ensures var r := ShowdownResult(seats, community, pot, stats);
      && (forall i :: 0 <= i < |seats| ==> r.0[i].hand == seats[i].hand)
      && ShowdownWinner(r.0, community) == ShowdownWinner(seats, community)
      && (ShowdownWinner(seats, community).Err? ==> r == (seats, stats, Failed(ShowdownWinner(seats, community).error)))
      && (ShowdownWinner(seats, community).Ok? ==>
        && r.0 == Paid(seats, ShowdownWinner(seats, community).value, pot)
        && SumMoney(r.0) == SumMoney(seats) + pot)
      && (r.1, r.2) == ShowdownRecord(r.0, community, pot, stats)
  {
    if ShowdownWinner(seats, community).Ok? {
      var w := ShowdownWinner(seats, community).value;
      ShowdownWinnerReadsHands(seats, Paid(seats, w, pot), community);
    }
  }

  /** Whether a round's outcome shows that it reached showdown. */
  predicate AtShowdown(outcome: Outcome) {
    outcome.Done? || outcome.failure.MissingGainsEntry? || outcome.failure.NoCardsToEvaluate?
    || outcome.failure.NoShownHand? || outcome.failure.TiedWinnerIndex?
  }

  /** The seats after seat `w` is paid the pot. */
  function Paid(seats: seq<PlayerState>, w: nat, pot: int): (r: seq<PlayerState>)
    requires w < |seats|
    ensures |r| == |seats| && SumMoney(r) == SumMoney(seats) + pot
    ensures forall i :: 0 <= i < |seats| ==> r[i].hand == seats[i].hand && r[i].isActive == seats[i].isActive
    ensures r[w] == seats[w].(money := seats[w].money + pot)
    ensures forall i :: 0 <= i < |seats| && i != w ==> r[i] == seats[i]
  {
    SumMoneyUpdate(seats, w, seats[w].(money := seats[w].money + pot));
    seats[w := seats[w].(money := seats[w].money + pot)]
  }

  /**
   * What showdown leaves in the statistics and reports, read off the seats it leaves: the
   * exception of ShowdownWinner with nothing recorded, or the winner's position appended and
   * the gains lines applied. Nothing else in the statistics changes, and the outcome is one
   * that only showdown produces.
   */
  function ShowdownRecord(seats: seq<PlayerState>, community: seq<Card>, pot: int, stats: GameStatistics)
    : (r: (GameStatistics, Outcome))
    requires |seats| > 0
    ensures r.0 == stats.(winners := r.0.winners, moneyGained := r.0.moneyGained)
    ensures AtShowdown(r.1)
  {
    match ShowdownWinner(seats, community)
    case Err(e) => (stats, Failed(e))
    case Ok(w) =>
      var gained := RecordedGains(stats.moneyGained, seats, pot, w);
      (stats.(winners := stats.winners + [w], moneyGained := gained.0), gained.1)
  }

  /** What seat `j` gained this round: the pot less its bet for the winner, minus its bet for the others. */
  function RoundGain(seats: seq<PlayerState>, pot: int, winner: nat, j: nat): int
    requires j < |seats|
  {
    if j == winner then pot - seats[j].bet else -seats[j].bet
  }

  /**
   * Where the last loop of showdown stops, scanning seats `i` up to `n`: the first seat other
   * than the winner with no gains entry (the KeyError), or `n` when every such seat has one.
   */
  function GainsStop(gains: map<nat, seq<int>>, winner: nat, i: nat, n: nat): (r: nat)
    requires i <= n
    ensures i <= r <= n
    ensures r < n ==> r != winner && r !in gains
    ensures forall j :: i <= j < r && j != winner ==> j in gains
    decreases n - i
  {
    if i == n then n
    else if i != winner && i !in gains then i
    else GainsStop(gains, winner, i + 1, n)
  }

  /** From `before` to `after` only seats still able to bet changed, and no hand changed. */
  ghost predicate OnlyBettorsChange(before: seq<PlayerState>, after: seq<PlayerState>) {
    |after| == |before|
    && (forall i :: 0 <= i < |before| && (!before[i].isActive || before[i].isAllIn) ==> after[i] == before[i])
    && (forall i :: 0 <= i < |before| ==> after[i].hand == before[i].hand)
  }

  lemma OnlyBettorsChangeChains(a: seq<PlayerState>, b: seq<PlayerState>, c: seq<PlayerState>)
    requires OnlyBettorsChange(a, b) && OnlyBettorsChange(b, c)
    ensures OnlyBettorsChange(a, c)
  {
  }

  /**
   * The loop of showdown's statistics lines from seat `i` on: each seat other than the winner
   * appends its loss, and the first one with no entry raises KeyError.
   */
  function GainsFrom(gains: map<nat, seq<int>>, seats: seq<PlayerState>, pot: int, winner: nat, i: nat)
    : (r: (map<nat, seq<int>>, Outcome))
    requires i <= |seats|
    ensures r.0.Keys == gains.Keys
    ensures r.1.Done? || r.1.failure.MissingGainsEntry?
    decreases |seats| - i
  {
    if i == |seats| then (gains, Done)
    else if i != winner && i !in gains then (gains, Failed(MissingGainsEntry(i)))
    else if i == winner then GainsFrom(gains, seats, pot, winner, i + 1)
    else GainsFrom(gains[i := gains[i] + [RoundGain(seats, pot, winner, i)]], seats, pot, winner, i + 1)
  }

  /**
   * The statistics lines of showdown: the winner's gain is appended first (a KeyError there
   * changes nothing), then the losses of the other seats in seat order.
   */
  function RecordedGains(gains: map<nat, seq<int>>, seats: seq<PlayerState>, pot: int, winner: nat)
    : (r: (map<nat, seq<int>>, Outcome))
    requires winner < |seats|
    ensures r.1.Done? || r.1.failure.MissingGainsEntry?
  {
    if winner !in gains then (gains, Failed(MissingGainsEntry(winner)))
    else GainsFrom(gains[winner := gains[winner] + [RoundGain(seats, pot, winner, winner)]], seats, pot, winner, 0)
  }

  /** From seat `i` on, the loop fails exactly at the first seat other than the winner with no entry. */
  lemma {:induction false} GainsFromStops(gains: map<nat, seq<int>>, seats: seq<PlayerState>, pot: int, winner: nat, i: nat)
    requires i <= |seats|
    ensures var r := GainsFrom(gains, seats, pot, winner, i);
      var stop := GainsStop(gains, winner, i, |seats|);
      && (r.1.Failed? <==> stop < |seats|)
      && (r.1.Failed? ==> r.1 == Failed(MissingGainsEntry(stop)))
    decreases |seats| - i
  {
    if i == |seats| {
    } else if i != winner && i !in gains {
      assert GainsStop(gains, winner, i, |seats|) == i;
    } else if i == winner {
      assert GainsFrom(gains, seats, pot, winner, i) == GainsFrom(gains, seats, pot, winner, i + 1);
      assert GainsStop(gains, winner, i, |seats|) == GainsStop(gains, winner, i + 1, |seats|);
      GainsFromStops(gains, seats, pot, winner, i + 1);
    } else {
      var next := gains[i := gains[i] + [RoundGain(seats, pot, winner, i)]];
      assert GainsFrom(next, seats, pot, winner, i + 1) == GainsFrom(gains, seats, pot, winner, i);
      assert GainsStop(gains, winner, i, |seats|) == GainsStop(gains, winner, i + 1, |seats|);
      GainsFromStops(next, seats, pot, winner, i + 1);
      GainsStopIgnoresValues(gains, next, winner, i + 1, |seats|);
    }
  }

  /** From seat `i` on, the loop appends to exactly the seats before the first missing entry. */
  lemma {:induction false} GainsFromAppends(gains: map<nat, seq<int>>, seats: seq<PlayerState>, pot: int, winner: nat, i: nat)
    requires i <= |seats|
    ensures var r := GainsFrom(gains, seats, pot, winner, i);
      var stop := GainsStop(gains, winner, i, |seats|);
      forall j :: j in r.0 ==>
        r.0[j] == (if j != winner && i <= j < stop then gains[j] + [RoundGain(seats, pot, winner, j)] else gains[j])
    decreases |seats| - i
  {
    if i == |seats| {
    } else if i != winner && i !in gains {
      assert GainsStop(gains, winner, i, |seats|) == i;
    } else if i == winner {
      assert GainsFrom(gains, seats, pot, winner, i) == GainsFrom(gains, seats, pot, winner, i + 1);
      assert GainsStop(gains, winner, i, |seats|) == GainsStop(gains, winner, i + 1, |seats|);
      GainsFromAppends(gains, seats, pot, winner, i + 1);
    } else {
      var next := gains[i := gains[i] + [RoundGain(seats, pot, winner, i)]];
      GainsFromAppends(next, seats, pot, winner, i + 1);
      GainsAppendStep(gains, seats, pot, winner, i);
    }
  }

  /** One step of GainsFromAppends: appending seat `i`'s loss and then the rest is the formula from `i`. */
  lemma GainsAppendStep(gains: map<nat, seq<int>>, seats: seq<PlayerState>, pot: int, winner: nat, i: nat)
    requires i < |seats| && i != winner && i in gains
    requires var next := gains[i := gains[i] + [RoundGain(seats, pot, winner, i)]];
      var r := GainsFrom(next, seats, pot, winner, i + 1);
      var stop := GainsStop(next, winner, i + 1, |seats|);
      forall j :: j in r.0 ==>
        r.0[j] == (if j != winner && i + 1 <= j < stop then next[j] + [RoundGain(seats, pot, winner, j)] else next[j])
    ensures var r := GainsFrom(gains, seats, pot, winner, i);
      var stop := GainsStop(gains, winner, i, |seats|);
      forall j :: j in r.0 ==>
        r.0[j] == (if j != winner && i <= j < stop then gains[j] + [RoundGain(seats, pot, winner, j)] else gains[j])
  {
    var stop := GainsStop(gains, winner, i, |seats|);
    assert stop == GainsStop(gains, winner, i + 1, |seats|);
    var next := gains[i := gains[i] + [RoundGain(seats, pot, winner, i)]];
    var r := GainsFrom(next, seats, pot, winner, i + 1);
    assert r == GainsFrom(gains, seats, pot, winner, i);
    GainsStopIgnoresValues(gains, next, winner, i + 1, |seats|);
    forall j | j in r.0
      ensures r.0[j] == (if j != winner && i <= j < stop then gains[j] + [RoundGain(seats, pot, winner, j)] else gains[j])
    {
      if j == i {
        assert r.0[j] == next[j];
      }
    }
  }

  /** Where the scan stops depends only on which seats have an entry. */
  lemma {:induction false} GainsStopIgnoresValues(a: map<nat, seq<int>>, b: map<nat, seq<int>>, winner: nat, i: nat, n: nat)
    requires i <= n && a.Keys == b.Keys
    ensures GainsStop(a, winner, i, n) == GainsStop(b, winner, i, n)
    decreases n - i
  {
    if i < n {
      GainsStopIgnoresValues(a, b, winner, i + 1, n);
    }
  }

  /**
   * What the statistics lines do: with no entry for the winner, KeyError and no change; otherwise
   * the winner's gain and the losses of the seats before the first one with no entry are appended,
   * and the round completes exactly when every seat has an entry.
   */
  lemma RecordedGainsAppends(gains: map<nat, seq<int>>, seats: seq<PlayerState>, pot: int, winner: nat)
    requires winner < |seats|
    ensures var r := RecordedGains(gains, seats, pot, winner);
      && r.0.Keys == gains.Keys
      && (r.1.Done? <==> forall i :: 0 <= i < |seats| ==> i in gains)
      && (winner !in gains ==> r == (gains, Failed(MissingGainsEntry(winner))))
      && (winner in gains ==>
        var stop := GainsStop(gains, winner, 0, |seats|);
        && (r.1.Failed? ==> r.1 == Failed(MissingGainsEntry(stop)))
        && forall j :: j in r.0 ==>
          r.0[j] == (if j == winner || j < stop then gains[j] + [RoundGain(seats, pot, winner, j)] else gains[j]))
  {
    if winner in gains {
      var first := gains[winner := gains[winner] + [RoundGain(seats, pot, winner, winner)]];
      GainsFromStops(first, seats, pot, winner, 0);
      GainsFromAppends(first, seats, pot, winner, 0);
      GainsStopIgnoresValues(gains, first, winner, 0, |seats|);
      var stop := GainsStop(gains, winner, 0, |seats|);
      if stop == |seats| {
        assert forall i :: 0 <= i < |seats| ==> i in gains;
      } else {
        assert stop !in gains;
      }
    }
  }

  // ---------------------------------------------------------------------------
  // betting_round as functions of the table, the queue and the move source

  /**
   * The first of the `tries` requests to `seat`, numbered from `first`, whose move the
   * rules accept on table `t`; None when every one of them is rejected.
   */
  function FirstAccepted(t: Table, seat: nat, raiseAllowed: bool, source: MoveSource, first: nat, tries: int)
    : (r: Option<nat>)
    requires seat < |t.seats|
    ensures r.Some? ==> first <= r.value < first + tries && ApplyMove(t, seat, source(r.value, seat), raiseAllowed).Ok?
    decreases tries
  {
    if tries <= 0 then None
    else if ApplyMove(t, seat, source(first, seat), raiseAllowed).Ok? then Some(first)
    else FirstAccepted(t, seat, raiseAllowed, source, first + 1, tries - 1)
  }

  /** Every request before the accepted one, or every one of the `tries` when none is accepted, is rejected. */
  lemma {:induction false} FirstAcceptedRejectsEarlier(t: Table, seat: nat, raiseAllowed: bool, source: MoveSource,
                                                       first: nat, tries: int)
    requires seat < |t.seats|
    ensures var r := FirstAccepted(t, seat, raiseAllowed, source, first, tries);
      forall n: nat :: first <= n < (if r.Some? then r.value else first + tries) ==>
        ApplyMove(t, seat, source(n, seat), raiseAllowed).Err?
    decreases tries
  {
    if tries > 0 && ApplyMove(t, seat, source(first, seat), raiseAllowed).Err? {
      FirstAcceptedRejectsEarlier(t, seat, raiseAllowed, source, first + 1, tries - 1);
    }
  }

  /** A turn's effect: the table after it, the next request number, and whether it was a raise. */
  datatype Turn = Turn(table: Table, requests: nat, raised: bool)

  /**
   * A turn of a seat that is asked at least once: the first accepted move is applied; when
   * all `tries` requests are rejected the seat is folded (with raises allowed, as the source
   * calls handle_player_move with its default).
   */
  function PlayedTurn(t: Table, seat: nat, raiseAllowed: bool, source: MoveSource, first: nat, tries: int)
    : (r: Turn)
    requires seat < |t.seats| && tries > 0
    ensures |r.table.seats| == |t.seats|
    ensures first < r.requests <= first + tries
    ensures r.raised ==> raiseAllowed
    ensures forall i :: 0 <= i < |t.seats| && i != seat ==> r.table.seats[i] == t.seats[i]
    ensures r.table.seats[seat].hand == t.seats[seat].hand
  {
    match FirstAccepted(t, seat, raiseAllowed, source, first, tries)
    case Some(n) =>
      Turn(ApplyMove(t, seat, source(n, seat), raiseAllowed).value, n + 1, source(n, seat).action == Raise)
    case None =>
      Turn(ApplyMove(t, seat, Move(Fold, 0), true).value, first + tries, false)
  }

  /**
   * After a turn the seat has folded, is all in, or has matched the call amount; only a raise
   * lifts the call amount; chips are neither created nor lost, and the pot stays the sum of the bets.
   */
  lemma PlayedTurnSettles(t: Table, seat: nat, raiseAllowed: bool, source: MoveSource, first: nat, tries: int)
    requires seat < |t.seats| && tries > 0
    ensures var r := PlayedTurn(t, seat, raiseAllowed, source, first, tries);
      && (!r.table.seats[seat].isActive || r.table.seats[seat].isAllIn || r.table.seats[seat].bet == r.table.callAmount)
      && (r.raised ==> r.table.callAmount > t.callAmount && r.table.seats[seat].isActive == t.seats[seat].isActive)
      && (!r.raised ==> r.table.callAmount == t.callAmount)
      && Chips(r.table) == Chips(t) && (PotIsBets(t) ==> PotIsBets(r.table))
  {
    var accepted := FirstAccepted(t, seat, raiseAllowed, source, first, tries);
    var m := if accepted.Some? then source(accepted.value, seat) else Move(Fold, 0);
    var allowed := if accepted.Some? then raiseAllowed else true;
    ApplyMoveSettlesSeat(t, seat, m, allowed);
    ApplyMoveCallAmount(t, seat, m, allowed);
    ApplyMoveConservesChips(t, seat, m, allowed);
    if PotIsBets(t) {
      ApplyMoveKeepsPotIsBets(t, seat, m, allowed);
    }
  }

  /** The raise branch's queue update: each seat of `more`, in order, is appended unless already queued. */
  function Requeued(queue: seq<nat>, more: seq<nat>): (r: seq<nat>)
    ensures forall x :: x in r <==> x in queue || x in more
    ensures |queue| <= |r| && r[..|queue|] == queue
    ensures NoDuplicates(queue) ==> NoDuplicates(r)
    decreases |more|
  {
    if |more| == 0 then queue
    else Requeued(if more[0] in queue then queue else queue + [more[0]], more[1..])
  }

  /** The seats of `more` that are not in `queue`, in their order in `more`. */
  function Unqueued(more: seq<nat>, queue: seq<nat>): (r: seq<nat>)
    ensures forall x :: x in r <==> x in more && x !in queue
  {
    if |more| == 0 then []
    else (if more[0] in queue then [] else [more[0]]) + Unqueued(more[1..], queue)
  }

  lemma {:induction false} UnqueuedIgnores(more: seq<nat>, queue: seq<nat>, x: nat)
    requires x !in more
    ensures Unqueued(more, queue + [x]) == Unqueued(more, queue)
  {
    if |more| > 0 {
      UnqueuedIgnores(more[1..], queue, x);
    }
  }

  /** When `more` names no seat twice, the re-queue appends exactly its unqueued seats, in its order. */
  lemma {:induction false} RequeuedAppendsUnqueued(queue: seq<nat>, more: seq<nat>)
    requires NoDuplicates(more)
    ensures Requeued(queue, more) == queue + Unqueued(more, queue)
    decreases |more|
  {
    if |more| > 0 {
      var rest := more[1..];
      assert NoDuplicates(rest) && more[0] !in rest by {
        forall a, b | 0 <= a < b < |rest| ensures rest[a] != rest[b] {
          assert rest[a] == more[a + 1] && rest[b] == more[b + 1];
        }
      }
      if more[0] in queue {
        RequeuedAppendsUnqueued(queue, rest);
      } else {
        RequeuedAppendsUnqueued(queue + [more[0]], rest);
        UnqueuedIgnores(rest, queue, more[0]);
      }
    }
  }

  /** Where a betting round stands: the table, the raise count and the next request number. */
  datatype RoundState = RoundState(table: Table, raises: nat, requests: nat)

  /**
   * One pass of betting_round's loop for `seat`, just taken from the queue with `rest` left
   * behind it: an all-in seat is skipped; with no tries NoMoveMade is raised; otherwise the
   * seat plays its turn, and an accepted raise re-queues the active seats from the next seat on.
   * The result is the state after the pass, how it ended, and the queue left.
   */
  function TurnStep(t: Table, seat: nat, rest: seq<nat>, raises: nat, requests: nat, maxRaises: int, tries: int,
                    source: MoveSource): (r: (RoundState, Outcome, seq<nat>))
    requires seat < |t.seats|
    ensures |r.0.table.seats| == |t.seats| && requests <= r.0.requests
    ensures Chips(r.0.table) == Chips(t) && (PotIsBets(t) ==> PotIsBets(r.0.table))
    ensures r.1.Failed? ==> r.1 == Failed(NoMoveMade(seat)) && tries <= 0 && r.0 == RoundState(t, raises, requests)
    ensures r.0.raises == raises ==> r.2 == rest
    ensures r.0.raises != raises ==> r.0.raises == raises + 1 && raises < maxRaises
    ensures r.0.raises != raises && t.seats[seat].isActive ==> seat in r.2
    ensures forall x :: x in r.2 ==> x in rest || x < |t.seats|
    ensures forall i :: 0 <= i < |t.seats| && i != seat ==> r.0.table.seats[i] == t.seats[i]
    ensures t.seats[seat].isActive ==> OnlyBettorsChange(t.seats, r.0.table.seats)
    ensures r.0.table.callAmount >= t.callAmount
  {
    if t.seats[seat].isAllIn then (RoundState(t, raises, requests), Done, rest)
    else if tries <= 0 then (RoundState(t, raises, requests), Failed(NoMoveMade(seat)), rest)
    else
      var turn := PlayedTurn(t, seat, raises < maxRaises, source, requests, tries);
      PlayedTurnSettles(t, seat, raises < maxRaises, source, requests, tries);
      if turn.raised then
        var next := Requeued(rest, ActiveSeats(turn.table.seats, (seat + 1) % |t.seats|));
        (RoundState(turn.table, raises + 1, turn.requests), Done, next)
      else (RoundState(turn.table, raises, turn.requests), Done, rest)
  }

  /**
   * What betting_round keeps about its queue on table `t`: every queued seat exists and is
   * active, none is queued twice, and every active seat that is not all in and not queued
   * has matched the call amount.
   */
  predicate QueueInvariant(t: Table, queue: seq<nat>) {
    && (forall k :: 0 <= k < |queue| ==> queue[k] < |t.seats| && t.seats[queue[k]].isActive)
    && NoDuplicates(queue)
    && forall i :: 0 <= i < |t.seats| && t.seats[i].isActive && !t.seats[i].isAllIn && i !in queue ==>
      t.seats[i].bet == t.callAmount
  }

  /** A pass of the loop that ends normally keeps the queue invariant. */
  lemma TurnStepKeepsQueue(t: Table, queue: seq<nat>, raises: nat, requests: nat, maxRaises: int, tries: int,
                           source: MoveSource)
    requires |queue| > 0 && QueueInvariant(t, queue)
    ensures var r := TurnStep(t, queue[0], queue[1..], raises, requests, maxRaises, tries, source);
      r.1.Done? ==> QueueInvariant(r.0.table, r.2)
  {
    var seat, rest := queue[0], queue[1..];
    QueueTail(t, queue);
    if t.seats[seat].isAllIn {
      assert TurnStep(t, seat, rest, raises, requests, maxRaises, tries, source) == (RoundState(t, raises, requests), Done, rest);
      UnraisedTurnKeepsQueue(t, t, seat, rest);
    } else if tries > 0 {
      PlayedTurnKeepsQueue(t, seat, rest, raises, requests, maxRaises, tries, source);
    }
  }

  /** The turn a seat plays leaves a queue that keeps the invariant: the rest of the queue, re-queued after a raise. */
  lemma PlayedTurnKeepsQueue(t: Table, seat: nat, rest: seq<nat>, raises: nat, requests: nat, maxRaises: int, tries: int,
                             source: MoveSource)
    requires seat < |t.seats| && !t.seats[seat].isAllIn && tries > 0 && seat !in rest && NoDuplicates(rest)
    requires forall x :: x in rest ==> x < |t.seats| && t.seats[x].isActive
    requires forall i :: 0 <= i < |t.seats| && t.seats[i].isActive && !t.seats[i].isAllIn && i != seat && i !in rest ==>
      t.seats[i].bet == t.callAmount
    ensures var r := TurnStep(t, seat, rest, raises, requests, maxRaises, tries, source);
      QueueInvariant(r.0.table, r.2)
  {
    var r := TurnStep(t, seat, rest, raises, requests, maxRaises, tries, source);
    var turn := PlayedTurn(t, seat, raises < maxRaises, source, requests, tries);
    PlayedTurnSettles(t, seat, raises < maxRaises, source, requests, tries);
    assert r.0.table == turn.table;
    if turn.raised {
      assert r.2 == Requeued(rest, ActiveSeats(turn.table.seats, (seat + 1) % |t.seats|));
      RaisedTurnKeepsQueue(t, turn.table, seat, rest);
    } else {
      assert r.2 == rest;
      UnraisedTurnKeepsQueue(t, turn.table, seat, rest);
    }
  }

  /** Taking the first seat off a queue that keeps the invariant: what the rest of the queue keeps. */
  lemma QueueTail(t: Table, queue: seq<nat>)
    requires |queue| > 0 && QueueInvariant(t, queue)
    ensures var rest := queue[1..];
      && queue[0] < |t.seats| && t.seats[queue[0]].isActive
      && NoDuplicates(rest) && queue[0] !in rest
      && (forall x :: x in rest ==> x < |t.seats| && t.seats[x].isActive)
      && forall i :: 0 <= i < |t.seats| && t.seats[i].isActive && !t.seats[i].isAllIn && i != queue[0] && i !in rest ==>
        t.seats[i].bet == t.callAmount
  {
    var rest := queue[1..];
    assert forall k :: 0 <= k < |rest| ==> rest[k] == queue[k + 1];
    forall x | x in rest ensures x < |t.seats| && t.seats[x].isActive {
      var a :| 0 <= a < |rest| && rest[a] == x;
      assert queue[a + 1] == x;
    }
    forall i | 0 <= i < |t.seats| && t.seats[i].isActive && !t.seats[i].isAllIn && i != queue[0] && i !in rest
      ensures t.seats[i].bet == t.callAmount
    {
      assert queue == [queue[0]] + rest;
    }
  }

  /**
   * A turn that does not raise keeps the invariant with the rest of the queue: the seat that
   * played is settled, and nothing else changed.
   */
  lemma UnraisedTurnKeepsQueue(t: Table, u: Table, seat: nat, rest: seq<nat>)
    requires seat < |t.seats| == |u.seats| && seat !in rest && NoDuplicates(rest)
    requires forall x :: x in rest ==> x < |t.seats| && t.seats[x].isActive
    requires forall i :: 0 <= i < |t.seats| && t.seats[i].isActive && !t.seats[i].isAllIn && i != seat && i !in rest ==>
      t.seats[i].bet == t.callAmount
    requires forall i :: 0 <= i < |t.seats| && i != seat ==> u.seats[i] == t.seats[i]
    requires u.callAmount == t.callAmount
    requires !u.seats[seat].isActive || u.seats[seat].isAllIn || u.seats[seat].bet == u.callAmount
    ensures QueueInvariant(u, rest)
  {
    forall k | 0 <= k < |rest| ensures rest[k] < |u.seats| && u.seats[rest[k]].isActive {
      assert rest[k] in rest;
    }
  }

  /** A turn that raises keeps the invariant: every active seat is queued again. */
  lemma RaisedTurnKeepsQueue(t: Table, u: Table, seat: nat, rest: seq<nat>)
    requires seat < |t.seats| == |u.seats| && NoDuplicates(rest)
    requires forall x :: x in rest ==> x < |t.seats| && t.seats[x].isActive
    requires forall i :: 0 <= i < |t.seats| && i != seat ==> u.seats[i] == t.seats[i]
    requires u.seats[seat].isActive == t.seats[seat].isActive
    ensures QueueInvariant(u, Requeued(rest, ActiveSeats(u.seats, (seat + 1) % |t.seats|)))
  {
    forall x | x in rest ensures x < |u.seats| && u.seats[x].isActive {
      if x != seat {
        assert u.seats[x] == t.seats[x];
      }
    }
    var start := (seat + 1) % |t.seats|;
    assert start < |u.seats|;
    RequeuedKeepsActive(u.seats, rest, start);
  }

  /** Re-queueing the active seats of a table onto a queue of active seats queues only active seats. */
  lemma RequeuedKeepsActive(seats: seq<PlayerState>, rest: seq<nat>, start: nat)
    requires start < |seats| && forall x :: x in rest ==> x < |seats| && seats[x].isActive
    ensures var r := Requeued(rest, ActiveSeats(seats, start));
      forall k :: 0 <= k < |r| ==> r[k] < |seats| && seats[r[k]].isActive
  {
    var r := Requeued(rest, ActiveSeats(seats, start));
    forall k | 0 <= k < |r| ensures r[k] < |seats| && seats[r[k]].isActive {
      assert r[k] in r;
    }
  }

  /** betting_round from `queue` onward: the state it ends in and how it ends. */
  function RoundFrom(t: Table, queue: seq<nat>, raises: nat, requests: nat, maxRaises: int, tries: int,
                     source: MoveSource): (r: (RoundState, Outcome))
    requires forall x :: x in queue ==> x < |t.seats|
    ensures |r.0.table.seats| == |t.seats|
    ensures raises <= r.0.raises && requests <= r.0.requests
    ensures r.0.raises != raises ==> r.0.raises <= maxRaises
    ensures Chips(r.0.table) == Chips(t) && (PotIsBets(t) ==> PotIsBets(r.0.table))
    ensures r.1.Failed? ==> tries <= 0 && r.1.failure.NoMoveMade?
    ensures |queue| == 0 ==> r == (RoundState(t, raises, requests), Done)
    decreases if raises < maxRaises then maxRaises - raises else 0, |queue|
  {
    if |queue| == 0 then (RoundState(t, raises, requests), Done)
    else
      assert queue[0] in queue;
      assert forall x :: x in queue[1..] ==> x in queue;
      var step := TurnStep(t, queue[0], queue[1..], raises, requests, maxRaises, tries, source);
      if step.1.Failed? then (step.0, step.1)
      else RoundFrom(step.0.table, step.2, step.0.raises, step.0.requests, maxRaises, tries, source)
  }

  /**
   * betting_round from a queue that keeps the invariant: the call amount does not fall, only
   * seats able to bet change, and a round that ends normally leaves every active seat that is
   * not all in matching the call amount.
   */
  lemma {:induction false} RoundFromSettles(t: Table, queue: seq<nat>, raises: nat, requests: nat, maxRaises: int,
                                            tries: int, source: MoveSource)
    requires QueueInvariant(t, queue)
    ensures var r := RoundFrom(t, queue, raises, requests, maxRaises, tries, source);
      && r.0.table.callAmount >= t.callAmount
      && OnlyBettorsChange(t.seats, r.0.table.seats)
      && (r.1.Done? ==> forall i :: 0 <= i < |t.seats| && r.0.table.seats[i].isActive && !r.0.table.seats[i].isAllIn ==>
        r.0.table.seats[i].bet == r.0.table.callAmount)
    decreases if raises < maxRaises then maxRaises - raises else 0, |queue|
  {
    if |queue| > 0 {
      var step := TurnStep(t, queue[0], queue[1..], raises, requests, maxRaises, tries, source);
      TurnStepKeepsQueue(t, queue, raises, requests, maxRaises, tries, source);
      if step.1.Done? {
        var r := RoundFrom(step.0.table, step.2, step.0.raises, step.0.requests, maxRaises, tries, source);
        assert r == RoundFrom(t, queue, raises, requests, maxRaises, tries, source);
        RoundFromSettles(step.0.table, step.2, step.0.raises, step.0.requests, maxRaises, tries, source);
        OnlyBettorsChangeChains(t.seats, step.0.table.seats, r.0.table.seats);
      }
    }
  }

  // ---------------------------------------------------------------------------
  // play_round and play_game on values

  /** The limits a game is created with. */
  datatype Rules = Rules(smallBlind: int, bigBlind: int, raisesPerRound: int, triesPerMove: int,
                         numRounds: int, numEliminations: int)

  /** What a round works on besides the statistics: the table, the move counter, the deck and the board. */
  datatype Play = Play(table: Table, requests: nat, deck: seq<Card>, board: seq<Card>)

  /** betting_round(start) on a play: the queue is the active seats from `start`, no raise made yet. */
  function BetFrom(p: Play, start: nat, rules: Rules, source: MoveSource): (r: (Play, Outcome))
    requires start < |p.table.seats|
    ensures r.0.deck == p.deck && r.0.board == p.board && r.0.requests >= p.requests
    ensures |r.0.table.seats| == |p.table.seats| && Chips(r.0.table) == Chips(p.table)
    ensures r.1.Failed? ==> r.1.failure.NoMoveMade? && rules.triesPerMove <= 0
  {
    var round := RoundFrom(p.table, ActiveSeats(p.table.seats, start), 0, p.requests, rules.raisesPerRound,
                           rules.triesPerMove, source);
    (p.(table := round.0.table, requests := round.0.requests), round.1)
  }

  /**
   * A betting round changes only seats still able to bet, never lowers the call amount, and when
   * it ends normally every active seat that is not all in has bet the call amount.
   */
  lemma BetFromSettles(p: Play, start: nat, rules: Rules, source: MoveSource)
    requires start < |p.table.seats|
    ensures var r := BetFrom(p, start, rules, source);
      && OnlyBettorsChange(p.table.seats, r.0.table.seats)
      && r.0.table.callAmount >= p.table.callAmount
      && (r.1.Done? ==> Settled(r.0.table))
  {
    RoundFromSettles(p.table, ActiveSeats(p.table.seats, start), 0, p.requests, rules.raisesPerRound,
                     rules.triesPerMove, source);
  }

  /** Every active seat that is not all in has bet the call amount. */
  ghost predicate Settled(t: Table) {
    forall i :: 0 <= i < |t.seats| && t.seats[i].isActive && !t.seats[i].isAllIn ==> t.seats[i].bet == t.callAmount
  }

  /**
   * deal_community_cards(num) and then betting_round from the small blind, as for the flop, the
   * turn and the river. A short deck puts what is left on the board and raises IndexError.
   */
  function DealThenBet(p: Play, num: nat, rules: Rules, source: MoveSource): (r: (Play, Outcome))
    requires |p.table.seats| > 0
    ensures |r.0.table.seats| == |p.table.seats| && Chips(r.0.table) == Chips(p.table)
    ensures r.1 == Failed(DeckExhausted) <==> num > |p.deck|
    ensures r.1.Failed? && num <= |p.deck| ==> r.1.failure.NoMoveMade? && rules.triesPerMove <= 0
    ensures num <= |p.deck| ==> r.0.deck == p.deck[num..] && r.0.board == p.board + p.deck[..num]
    ensures num > |p.deck| ==> r.0 == p.(deck := [], board := p.board + p.deck)
  {
    if num > |p.deck| then (p.(deck := [], board := p.board + p.deck), Failed(DeckExhausted))
    else BetFrom(p.(deck := p.deck[num..], board := p.board + p.deck[..num]), SMALL_BLIND_ID, rules, source)
  }

  /** The flop, the turn and the river: three, one and one cards, each followed by a betting round. */
  function StreetsFrom(p: Play, rules: Rules, source: MoveSource): (r: (Play, Outcome))
    requires |p.table.seats| > 0
    ensures |r.0.table.seats| == |p.table.seats| && Chips(r.0.table) == Chips(p.table)
  {
    var flop := DealThenBet(p, 3, rules, source);
    if flop.1.Failed? then flop
    else
      var turn := DealThenBet(flop.0, 1, rules, source);
      if turn.1.Failed? then turn else DealThenBet(turn.0, 1, rules, source)
  }

  /**
   * The betting of play_round once the hands are dealt: before the flop from the seat after the
   * big blind, then the flop, the turn and the river from the small blind.
   */
  function BettingToRiver(p: Play, rules: Rules, source: MoveSource): (r: (Play, Outcome))
    requires |p.table.seats| > 0
    ensures |r.0.table.seats| == |p.table.seats| && Chips(r.0.table) == Chips(p.table)
  {
    var preflop := BetFrom(p, (BIG_BLIND_ID + 1) % |p.table.seats|, rules, source);
    if preflop.1.Failed? then preflop else StreetsFrom(preflop.0, rules, source)
  }

  /**
   * What `num` cards dealt and the betting after them do, ending in `r`: the cards reach the board
   * exactly when the deck holds them and every round ends normally; a failure is a short deck or a
   * seat never asked for a move; only seats able to bet change; and a normal end leaves every active
   * seat not all in matching the call.
   */
  ghost predicate DealsAndSettles(p: Play, num: nat, r: (Play, Outcome), tries: int) {
    && (num > |p.deck| ==> r.1.Failed?)
    && (r.1.Failed? ==>
      || (r.1 == Failed(DeckExhausted) && |p.deck| < num)
      || (r.1.failure.NoMoveMade? && tries <= 0))
    && (num <= |p.deck| && tries > 0 ==> r.1.Done?)
    && (r.1.Done? ==> num <= |p.deck| && r.0.deck == p.deck[num..] && r.0.board == p.board + p.deck[..num])
    && (r.1.Done? ==> Settled(r.0.table))
    && OnlyBettorsChange(p.table.seats, r.0.table.seats)
  }

  /** Two steps that each deal and settle, the first ending normally, deal and settle together. */
  lemma DealsAndSettlesChains(p: Play, a: nat, q: Play, b: nat, r: (Play, Outcome), tries: int)
    requires DealsAndSettles(p, a, (q, Done), tries) && DealsAndSettles(q, b, r, tries)
    ensures DealsAndSettles(p, a + b, r, tries)
  {
    OnlyBettorsChangeChains(p.table.seats, q.table.seats, r.0.table.seats);
    if r.1.Done? {
      assert p.deck[..a] + q.deck[..b] == p.deck[..a + b];
    }
  }

  /** A betting round alone deals no card and settles the table. */
  lemma BetFromDeals(p: Play, start: nat, rules: Rules, source: MoveSource)
    requires start < |p.table.seats|
    ensures DealsAndSettles(p, 0, BetFrom(p, start, rules, source), rules.triesPerMove)
  {
    BetFromSettles(p, start, rules, source);
    assert p.deck[0..] == p.deck && p.board + p.deck[..0] == p.board;
  }

  /** A deal of `num` cards and the betting after it deal and settle. */
  lemma DealThenBetSettles(p: Play, num: nat, rules: Rules, source: MoveSource)
    requires |p.table.seats| > 0
    ensures DealsAndSettles(p, num, DealThenBet(p, num, rules, source), rules.triesPerMove)
  {
    if num <= |p.deck| {
      BetFromSettles(p.(deck := p.deck[num..], board := p.board + p.deck[..num]), SMALL_BLIND_ID, rules, source);
    }
  }

  /** The flop, the turn and the river deal five cards and settle the table. */
  lemma StreetsFromDeals(p: Play, rules: Rules, source: MoveSource)
    requires |p.table.seats| > 0
    ensures DealsAndSettles(p, 5, StreetsFrom(p, rules, source), rules.triesPerMove)
  {
    var flop := DealThenBet(p, 3, rules, source);
    DealThenBetSettles(p, 3, rules, source);
    if flop.1.Done? {
      var turn := DealThenBet(flop.0, 1, rules, source);
      DealThenBetSettles(flop.0, 1, rules, source);
      if turn.1.Done? {
        DealsAndSettlesChains(p, 3, flop.0, 1, turn, rules.triesPerMove);
        DealThenBetSettles(turn.0, 1, rules, source);
        DealsAndSettlesChains(p, 4, turn.0, 1, DealThenBet(turn.0, 1, rules, source), rules.triesPerMove);
      } else {
        assert |p.deck| < 3 + 1 ==> |p.deck| < 5;
      }
    }
  }

  /** The four betting rounds of play_round deal five cards and settle the table. */
  lemma BettingToRiverDeals(p: Play, rules: Rules, source: MoveSource)
    requires |p.table.seats| > 0
    ensures DealsAndSettles(p, 5, BettingToRiver(p, rules, source), rules.triesPerMove)
  {
    var preflop := BetFrom(p, (BIG_BLIND_ID + 1) % |p.table.seats|, rules, source);
    BetFromDeals(p, (BIG_BLIND_ID + 1) % |p.table.seats|, rules, source);
    if preflop.1.Done? {
      StreetsFromDeals(preflop.0, rules, source);
      DealsAndSettlesChains(p, 0, preflop.0, 5, StreetsFrom(preflop.0, rules, source), rules.triesPerMove);
    }
  }

  /** deal_cards on the seats: seat i takes the deck's cards 2i and 2i+1 while the deck holds them. */
  function DealtSeats(seats: seq<PlayerState>, deck: seq<Card>): (r: seq<PlayerState>)
    ensures |r| == |seats| && SumMoney(r) == SumMoney(seats)
    ensures forall i :: 0 <= i < |seats| ==> r[i].(hand := seats[i].hand) == seats[i]
    ensures 2 * |seats| <= |deck| ==> forall i :: 0 <= i < |seats| ==> r[i].hand == deck[2 * i..2 * i + 2]
  {
    var r := seq(|seats|, i requires 0 <= i < |seats| =>
      if 2 * i + 2 <= |deck| then seats[i].(hand := deck[2 * i..2 * i + 2]) else seats[i]);
    SumMoneySameStacks(seats, r);
    r
  }

  /** The table after handle_forced_bet for the small blind and then for the big blind. */
  function Blinds(t: Table, rules: Rules): (r: Table)
    requires |t.seats| >= 2
    ensures |r.seats| == |t.seats| && Chips(r) == Chips(t) && r.callAmount == t.callAmount
  {
    var small := PostBlind(t, SMALL_BLIND_ID, rules.smallBlind);
    PostBlindConservesChips(t, SMALL_BLIND_ID, rules.smallBlind);
    PostBlindConservesChips(small, BIG_BLIND_ID, rules.bigBlind);
    PostBlind(small, BIG_BLIND_ID, rules.bigBlind)
  }

  /**
   * The start of play_round: both blinds are posted, then deal_cards gives every seat two cards;
   * a deck too short for every hand is emptied by the deal.
   */
  function PostedAndDealt(p: Play, rules: Rules): (r: Play)
    requires |p.table.seats| >= 2
    ensures |r.table.seats| == |p.table.seats| && Chips(r.table) == Chips(p.table)
    ensures r.requests == p.requests && r.board == p.board
    ensures r.table.pot == Blinds(p.table, rules).pot && r.table.callAmount == p.table.callAmount
    ensures forall i :: 0 <= i < |p.table.seats| ==>
      r.table.seats[i].(hand := Blinds(p.table, rules).seats[i].hand) == Blinds(p.table, rules).seats[i]
    ensures 2 * |p.table.seats| <= |p.deck| ==>
      && r.deck == p.deck[2 * |p.table.seats|..]
      && forall i :: 0 <= i < |p.table.seats| ==> r.table.seats[i].hand == p.deck[2 * i..2 * i + 2]
    ensures 2 * |p.table.seats| > |p.deck| ==> r.deck == []
  {
    var blinds := Blinds(p.table, rules);
    var n := |p.table.seats|;
    Play(blinds.(seats := DealtSeats(blinds.seats, p.deck)), p.requests,
         if 2 * n <= |p.deck| then p.deck[2 * n..] else [], p.board)
  }

  /** showdown after the betting ends in `bet`, unless the betting failed. */
  function ShowAfter(bet: (Play, Outcome), stats: GameStatistics): (r: (Play, GameStatistics, Outcome))
    requires |bet.0.table.seats| > 0
    ensures |r.0.table.seats| == |bet.0.table.seats|
    ensures r.1 == stats.(winners := r.1.winners, moneyGained := r.1.moneyGained)
  {
    if bet.1.Failed? then (bet.0, stats, bet.1)
    else
      var shown := ShowdownResult(bet.0.table.seats, bet.0.board, bet.0.table.pot, stats);
      ShowdownResultRecords(bet.0.table.seats, bet.0.board, bet.0.table.pot, stats);
      (bet.0.(table := bet.0.table.(seats := shown.0)), shown.1, shown.2)
  }

  /** The rest of play_round once the hands are dealt: the four betting rounds, then showdown. */
  function BetThenShow(p: Play, stats: GameStatistics, rules: Rules, source: MoveSource)
    : (r: (Play, GameStatistics, Outcome))
    requires |p.table.seats| > 0
    ensures |r.0.table.seats| == |p.table.seats|
    ensures r.1 == stats.(winners := r.1.winners, moneyGained := r.1.moneyGained)
  {
    ShowAfter(BettingToRiver(p, rules, source), stats)
  }

  /** play_round on values: the blinds and the deal, then the betting and showdown. */
  function RoundResult(p: Play, stats: GameStatistics, rules: Rules, source: MoveSource)
    : (r: (Play, GameStatistics, Outcome))
    requires |p.table.seats| >= 2
    ensures |r.0.table.seats| == |p.table.seats|
    ensures r.1 == stats.(winners := r.1.winners, moneyGained := r.1.moneyGained)
  {
    var dealt := PostedAndDealt(p, rules);
    if |p.deck| < 2 * |p.table.seats| then (dealt, stats, Failed(DeckExhausted))
    else BetThenShow(dealt, stats, rules, source)
  }

  /**
   * Showdown after betting that dealt five cards and settled: it is reached exactly when the betting
   * ended normally, and otherwise nothing is recorded. At showdown the hands are those the betting
   * began with, the board gains the deck's next five cards, the round is recorded as ShowdownRecord
   * says, and the winner takes every chip of the table.
   */
  lemma ShowAfterShows(p: Play, bet: (Play, Outcome), stats: GameStatistics, tries: int)
    requires |p.table.seats| > 0 && |bet.0.table.seats| == |p.table.seats|
    requires forall i :: 0 <= i < |p.table.seats| ==> bet.0.table.seats[i].hand == p.table.seats[i].hand
    requires bet.1.Failed? ==>
      || (bet.1 == Failed(DeckExhausted) && |p.deck| < 5)
      || (bet.1.failure.NoMoveMade? && tries <= 0)
    requires |p.deck| >= 5 && tries > 0 ==> bet.1.Done?
    requires bet.1.Done? ==> 5 <= |p.deck| && bet.0.deck == p.deck[5..] && bet.0.board == p.board + p.deck[..5]
    ensures var r := ShowAfter(bet, stats);
      && (|p.deck| >= 5 && tries > 0 ==> AtShowdown(r.2))
      && (!AtShowdown(r.2) ==> r.1 == stats)
      && (!AtShowdown(r.2) ==>
        || (r.2 == Failed(DeckExhausted) && |p.deck| < 5)
        || (r.2.failure.NoMoveMade? && tries <= 0))
      && (AtShowdown(r.2) ==>
        && |p.deck| >= 5 && r.0.deck == p.deck[5..] && r.0.board == p.board + p.deck[..5]
        && (forall i :: 0 <= i < |p.table.seats| ==> r.0.table.seats[i].hand == p.table.seats[i].hand)
        && (r.1, r.2) == ShowdownRecord(r.0.table.seats, r.0.board, r.0.table.pot, stats)
        && (ShowdownWinner(r.0.table.seats, r.0.board).Ok? ==> SumMoney(r.0.table.seats) == Chips(bet.0.table)))
  {
    if bet.1.Done? {
      ShowdownResultRecords(bet.0.table.seats, bet.0.board, bet.0.table.pot, stats);
    }
  }

  /**
   * What the betting and showdown do, ending in `r`: showdown is reached when the deck holds the five
   * board cards and each seat can be asked for a move; otherwise the failure is a short deck or an
   * unmade move and nothing is recorded. At showdown the hands are those the betting began with, the
   * board gains the deck's next five cards, the round is recorded as ShowdownRecord says, and the
   * winner takes every chip the table held before the betting.
   */
  ghost predicate ShowsDown(p: Play, r: (Play, GameStatistics, Outcome), stats: GameStatistics, tries: int) {
    && (|p.deck| >= 5 && tries > 0 ==> AtShowdown(r.2))
    && (!AtShowdown(r.2) ==> r.1 == stats)
    && (!AtShowdown(r.2) ==>
      || (r.2 == Failed(DeckExhausted) && |p.deck| < 5)
      || (r.2.failure.NoMoveMade? && tries <= 0))
    && (AtShowdown(r.2) ==>
      && |p.deck| >= 5 && r.0.deck == p.deck[5..] && r.0.board == p.board + p.deck[..5]
      && 0 < |r.0.table.seats| == |p.table.seats|
      && (forall i :: 0 <= i < |p.table.seats| ==> r.0.table.seats[i].hand == p.table.seats[i].hand)
      && (r.1, r.2) == ShowdownRecord(r.0.table.seats, r.0.board, r.0.table.pot, stats)
      && (ShowdownWinner(r.0.table.seats, r.0.board).Ok? ==> SumMoney(r.0.table.seats) == Chips(p.table)))
  }

  /** Once the hands are dealt, the betting and showdown do what ShowsDown says. */
  lemma BetThenShowShows(p: Play, stats: GameStatistics, rules: Rules, source: MoveSource)
    requires |p.table.seats| > 0
    ensures ShowsDown(p, BetThenShow(p, stats, rules, source), stats, rules.triesPerMove)
  {
    BettingToRiverDeals(p, rules, source);
    ShowAfterShows(p, BettingToRiver(p, rules, source), stats, rules.triesPerMove);
  }

  /**
   * What a whole round does, ending in `r`: it reaches showdown when the deck holds every hand and
   * the five board cards and each seat can be asked for a move; otherwise it stops with IndexError
   * or an unmade move and records nothing. At showdown the hands and the board are the deck's cards
   * in deal order, the round is recorded as ShowdownRecord says, and the winner takes every chip of
   * the table.
   */
  ghost predicate RoundShows(p: Play, r: (Play, GameStatistics, Outcome), stats: GameStatistics, tries: int) {
    var n := |p.table.seats|;
    && (|p.deck| >= 2 * n + 5 && tries > 0 ==> AtShowdown(r.2))
    && (!AtShowdown(r.2) ==> r.1 == stats)
    && (!AtShowdown(r.2) ==>
      || (r.2 == Failed(DeckExhausted) && |p.deck| < 2 * n + 5)
      || (r.2.failure.NoMoveMade? && tries <= 0))
    && (AtShowdown(r.2) ==>
      && |p.deck| >= 2 * n + 5
      && 0 < n == |r.0.table.seats|
      && r.0.deck == p.deck[2 * n + 5..]
      && r.0.board == p.board + p.deck[2 * n..2 * n + 5]
      && (forall i :: 0 <= i < n ==> r.0.table.seats[i].hand == p.deck[2 * i..2 * i + 2])
      && (r.1, r.2) == ShowdownRecord(r.0.table.seats, r.0.board, r.0.table.pot, stats)
      && (ShowdownWinner(r.0.table.seats, r.0.board).Ok? ==> SumMoney(r.0.table.seats) == Chips(p.table)))
  }

  /** play_round on values does what RoundShows says. */
  lemma RoundResultShows(p: Play, stats: GameStatistics, rules: Rules, source: MoveSource)
    requires |p.table.seats| >= 2
    ensures RoundShows(p, RoundResult(p, stats, rules, source), stats, rules.triesPerMove)
  {
    var n := |p.table.seats|;
    if |p.deck| >= 2 * n {
      var dealt := PostedAndDealt(p, rules);
      BetThenShowShows(dealt, stats, rules, source);
      DealtRoundShows(p, dealt, BetThenShow(dealt, stats, rules, source), stats, rules.triesPerMove);
    }
  }

  /** A round that completes found a gains entry for every seat. */
  lemma RoundDoneHasGains(p: Play, stats: GameStatistics, rules: Rules, source: MoveSource)
    requires |p.table.seats| >= 2
    ensures RoundResult(p, stats, rules, source).2.Done? ==> forall i :: 0 <= i < |p.table.seats| ==> i in stats.moneyGained
  {
    var r := RoundResult(p, stats, rules, source);
    RoundResultShows(p, stats, rules, source);
    if r.2.Done? {
      ShowdownDoneHasGains(r.0.table.seats, r.0.board, r.0.table.pot, stats);
    }
  }

  /** The facts of BetThenShowShows after the deal carry over to the play before the deal. */
  lemma DealtRoundShows(p: Play, dealt: Play, r: (Play, GameStatistics, Outcome), stats: GameStatistics, tries: int)
    requires |p.table.seats| >= 2 && |dealt.table.seats| == |p.table.seats| && |p.deck| >= 2 * |p.table.seats|
    requires dealt.deck == p.deck[2 * |p.table.seats|..] && dealt.board == p.board
    requires forall i :: 0 <= i < |p.table.seats| ==> dealt.table.seats[i].hand == p.deck[2 * i..2 * i + 2]
    requires |dealt.deck| >= 5 && tries > 0 ==> AtShowdown(r.2)
    requires !AtShowdown(r.2) ==>
      || (r.2 == Failed(DeckExhausted) && |dealt.deck| < 5)
      || (r.2.failure.NoMoveMade? && tries <= 0)
    requires AtShowdown(r.2) ==>
      && |dealt.deck| >= 5 && r.0.deck == dealt.deck[5..] && r.0.board == dealt.board + dealt.deck[..5]
      && |r.0.table.seats| == |p.table.seats|
      && (forall i :: 0 <= i < |p.table.seats| ==> r.0.table.seats[i].hand == dealt.table.seats[i].hand)
    ensures var n := |p.table.seats|;
      && (|p.deck| >= 2 * n + 5 && tries > 0 ==> AtShowdown(r.2))
      && (!AtShowdown(r.2) ==>
        || (r.2 == Failed(DeckExhausted) && |p.deck| < 2 * n + 5)
        || (r.2.failure.NoMoveMade? && tries <= 0))
      && (AtShowdown(r.2) ==>
        && |p.deck| >= 2 * n + 5
        && r.0.deck == p.deck[2 * n + 5..]
        && r.0.board == p.board + p.deck[2 * n..2 * n + 5]
        && (forall i :: 0 <= i < n ==> r.0.table.seats[i].hand == p.deck[2 * i..2 * i + 2]))
  {
    var n := |p.table.seats|;
    if AtShowdown(r.2) {
      assert dealt.deck[..5] == p.deck[2 * n..2 * n + 5];
    }
  }

  /** A showdown that completes found a gains entry for every seat. */
  lemma ShowdownDoneHasGains(seats: seq<PlayerState>, community: seq<Card>, pot: int, stats: GameStatistics)
    requires |seats| > 0
    ensures ShowdownRecord(seats, community, pot, stats).1.Done? ==> forall i :: 0 <= i < |seats| ==> i in stats.moneyGained
  {
    if ShowdownWinner(seats, community).Ok? {
      RecordedGainsAppends(stats.moneyGained, seats, pot, ShowdownWinner(seats, community).value);
    }
  }

  /** reset_game on values: every seat reset, no pot, no board, the call at the big blind, a new deck. */
  function ResetPlay(p: Play, shuffled: seq<Card>, bigBlind: int): (r: Play)
    ensures |r.table.seats| == |p.table.seats| && r.requests == p.requests
    ensures CountInactive(r.table.seats) == CountBroke(p.table.seats)
    ensures SumMoney(r.table.seats) == SumMoney(p.table.seats)
  {
    var seats := seq(|p.table.seats|, i requires 0 <= i < |p.table.seats| => ResetSeat(p.table.seats[i]));
    ResetCountsInactive(p.table.seats, seats);
    Play(Table(seats, 0, bigBlind), p.requests, shuffled, [])
  }

  /** A state that is reset_game's, field by field, is ResetPlay. */
  lemma ResetPlayIs(p: Play, q: Play, shuffled: seq<Card>, bigBlind: int)
    requires |q.table.seats| == |p.table.seats|
    requires forall i :: 0 <= i < |p.table.seats| ==> q.table.seats[i] == ResetSeat(p.table.seats[i])
    requires q.table.pot == 0 && q.table.callAmount == bigBlind && q.deck == shuffled && q.board == []
    requires q.requests == p.requests
    ensures q == ResetPlay(p, shuffled, bigBlind)
  {
  }

  /** The part of a game that play_game changes: the round state and the statistics. */
  datatype Match = Match(play: Play, stats: GameStatistics)

  /**
   * One pass of play_game's loop: play_round; when it completes, the round is counted and
   * reset_game deals with `shuffled`, returning how many seats are broke.
   */
  function RoundAndReset(m: Match, shuffled: seq<Card>, rules: Rules, source: MoveSource): (r: (Match, Outcome, nat))
    requires |m.play.table.seats| >= 2
    ensures |r.0.play.table.seats| == |m.play.table.seats|
    ensures r.1.Failed? ==> r.0.stats.numRounds == m.stats.numRounds && r.2 == 0
    ensures r.1.Done? ==>
      && r.0.stats.numRounds == m.stats.numRounds + 1
      && r.2 == CountInactive(r.0.play.table.seats)
      && 0 in m.stats.moneyGained
  {
    var played := RoundResult(m.play, m.stats, rules, source);
    if played.2.Failed? then ResetAfterRound(played, shuffled, rules.bigBlind)
    else
      RoundDoneHasGains(m.play, m.stats, rules, source);
      ResetAfterRound(played, shuffled, rules.bigBlind)
  }

  /**
   * What play_game does with a round's result: a failed round stops the game as it is; a
   * completed one is counted and reset_game deals `shuffled`, returning how many seats are broke.
   */
  function ResetAfterRound(played: (Play, GameStatistics, Outcome), shuffled: seq<Card>, bigBlind: int)
    : (r: (Match, Outcome, nat))
    ensures |r.0.play.table.seats| == |played.0.table.seats|
    ensures r.1 == played.2
    ensures r.1.Failed? ==> r.0 == Match(played.0, played.1) && r.2 == 0
    ensures r.1.Done? ==>
      && r.0.stats == played.1.(numRounds := played.1.numRounds + 1)
      && r.0.play.deck == shuffled && r.0.play.table.pot == 0 && r.0.play.board == []
      && r.2 == CountInactive(r.0.play.table.seats)
  {
    if played.2.Failed? then (Match(played.0, played.1), played.2, 0)
    else
      var reset := ResetPlay(played.0, shuffled, bigBlind);
      (Match(reset, played.1.(numRounds := played.1.numRounds + 1)), Done, CountBroke(played.0.table.seats))
  }

  /** play_game's loop from a state with `eliminations` broke seats, after `resets` resets. */
  function GameFrom(m: Match, eliminations: nat, resets: nat, shuffles: nat -> seq<Card>, rules: Rules,
                    source: MoveSource): (r: (Match, Outcome))
    requires |m.play.table.seats| >= 2
    ensures |r.0.play.table.seats| == |m.play.table.seats|
    decreases rules.numRounds - m.stats.numRounds
  {
    if m.stats.numRounds < rules.numRounds && eliminations < rules.numEliminations then
      var step := RoundAndReset(m, shuffles(resets), rules, source);
      if step.1.Failed? then (step.0, step.1)
      else GameFrom(step.0, step.2, resets + 1, shuffles, rules, source)
    else (m, Done)
  }

  /** One pass of play_game's loop, when its condition holds. */
  lemma GameFromStep(m: Match, eliminations: nat, resets: nat, shuffles: nat -> seq<Card>, rules: Rules,
                     source: MoveSource)
    requires |m.play.table.seats| >= 2
    requires m.stats.numRounds < rules.numRounds && eliminations < rules.numEliminations
    ensures var step := RoundAndReset(m, shuffles(resets), rules, source);
      GameFrom(m, eliminations, resets, shuffles, rules, source) ==
        if step.1.Failed? then (step.0, step.1) else GameFrom(step.0, step.2, resets + 1, shuffles, rules, source)
  {
  }

  /** play_game's loop ends, with the game complete, once either threshold is reached. */
  lemma GameFromDone(m: Match, eliminations: nat, resets: nat, shuffles: nat -> seq<Card>, rules: Rules,
                     source: MoveSource)
    requires |m.play.table.seats| >= 2
    requires !(m.stats.numRounds < rules.numRounds && eliminations < rules.numEliminations)
    ensures GameFrom(m, eliminations, resets, shuffles, rules, source) == (m, Done)
  {
  }

  /** play_game on values: reset_game with the first shuffle, then the loop. */
  function GameResult(m: Match, shuffles: nat -> seq<Card>, rules: Rules, source: MoveSource): (r: (Match, Outcome))
    requires |m.play.table.seats| >= 2
    ensures |r.0.play.table.seats| == |m.play.table.seats|
  {
    GameFrom(Match(ResetPlay(m.play, shuffles(0), rules.bigBlind), m.stats), CountBroke(m.play.table.seats), 1,
             shuffles, rules, source)
  }

  /**
   * play_game's loop stops only when fewer than num_rounds remain unplayed AND fewer than
   * num_eliminations seats are out is false, or a round fails; it never plays past num_rounds,
   * counts one round per completed pass, and a failure leaves both thresholds unreached.
   */
  lemma {:induction false} GameFromStops(m: Match, eliminations: nat, resets: nat, shuffles: nat -> seq<Card>,
                                         rules: Rules, source: MoveSource)
    requires |m.play.table.seats| >= 2 && eliminations == CountInactive(m.play.table.seats)
    ensures var r := GameFrom(m, eliminations, resets, shuffles, rules, source);
      && r.0.stats.numRounds >= m.stats.numRounds
      && r.0.stats.numRounds <= (if m.stats.numRounds < rules.numRounds then rules.numRounds else m.stats.numRounds)
      && (r.1.Done? ==> r.0.stats.numRounds >= rules.numRounds || CountInactive(r.0.play.table.seats) >= rules.numEliminations)
      && (r.1.Failed? ==> r.0.stats.numRounds < rules.numRounds && rules.numEliminations > 0)
      && (rules.numEliminations <= eliminations ==> r == (m, Done))
      && (m.stats.moneyGained == map[] ==> r.0.stats.numRounds == m.stats.numRounds)
    decreases rules.numRounds - m.stats.numRounds
  {
    if m.stats.numRounds < rules.numRounds && eliminations < rules.numEliminations {
      var step := RoundAndReset(m, shuffles(resets), rules, source);
      if step.1.Done? {
        GameFromStops(step.0, step.2, resets + 1, shuffles, rules, source);
      }
    }
  }

  /**
   * What a whole game does, from `m` to `r`, when its first reset deals `first`: the rounds counted
   * never fall and never pass num_rounds; a finished game has reached a threshold; a failed one
   * reached neither; with num_eliminations <= 0 no round is played and only the reset happens; and
   * with no gains entries no round completes.
   */
  ghost predicate GameStops(m: Match, r: (Match, Outcome), rules: Rules, first: seq<Card>) {
    && r.0.stats.numRounds >= m.stats.numRounds
    && r.0.stats.numRounds <= (if m.stats.numRounds < rules.numRounds then rules.numRounds else m.stats.numRounds)
    && (r.1.Done? ==> r.0.stats.numRounds >= rules.numRounds || CountInactive(r.0.play.table.seats) >= rules.numEliminations)
    && (r.1.Failed? ==> r.0.stats.numRounds < rules.numRounds && rules.numEliminations > 0)
    && (rules.numEliminations <= 0 ==> r == (Match(ResetPlay(m.play, first, rules.bigBlind), m.stats), Done))
    && (m.stats.moneyGained == map[] ==> r.0.stats.numRounds == m.stats.numRounds)
  }

  /** play_game on values does what GameStops says. */
  lemma GameResultStops(m: Match, shuffles: nat -> seq<Card>, rules: Rules, source: MoveSource)
    requires |m.play.table.seats| >= 2
    ensures GameStops(m, GameResult(m, shuffles, rules, source), rules, shuffles(0))
  {
    var reset := ResetPlay(m.play, shuffles(0), rules.bigBlind);
    GameFromStops(Match(reset, m.stats), CountBroke(m.play.table.seats), 1, shuffles, rules, source);
  }

  class PokerGame {
    const playerNames: seq<string>
    const numPlayers: nat
    const smallBlind: int
    const bigBlind: int
    const raisesPerRound: int
    const triesPerMove: int
    const numRounds: int
    const numEliminations: int

    var seats: seq<PlayerState>
    var deck: seq<Card>
    var pot: int
    var cards: seq<Card>
    var callAmount: int
    var statistics: GameStatistics
    /** How many moves have been asked for so far (selects the source's next answer). */
    var moveRequests: nat

    /**
     * The shape the methods rely on: at least two seats, one per name. It says nothing about
     * the deck (no check that it holds each card once) or about the seats' money and bets;
     * those facts are stated where an operation keeps them.
     */
    predicate Valid()
      reads this
    {
      numPlayers >= 2 && |playerNames| == numPlayers && |seats| == numPlayers
    }

    /** The part of the state the betting rules act on. */
    function TableView(): Table
      reads this
    {
      Table(seats, pot, callAmount)
    }

    /** The part of the state a round works on. */
    function State(): Play
      reads this
    {
      Play(TableView(), moveRequests, deck, cards)
    }

    /** The limits this game was created with. */
    function Settings(): Rules {
      Rules(smallBlind, bigBlind, raisesPerRound, triesPerMove, numRounds, numEliminations)
    }

    /** __init__, with the shuffled deck given instead of drawn. */
    constructor(names: seq<string>, money: seq<int>, smallBlind: int, bigBlind: int, raisesPerRound: int,
                triesPerMove: int, numRounds: int, numEliminations: int, shuffled: seq<Card>)
      requires |names| >= 2
      requires money == [] || |money| == |names|
      requires IsShuffle(shuffled)
      ensures Valid()
      ensures playerNames == names && numPlayers == |names|
      ensures this.smallBlind == smallBlind && this.bigBlind == bigBlind
      ensures this.raisesPerRound == raisesPerRound && this.triesPerMove == triesPerMove
      ensures this.numRounds == numRounds && this.numEliminations == numEliminations
      ensures forall i :: 0 <= i < |names| ==> seats[i] == PlayerState([], 0, StartingMoney(money, i), true, false)
      ensures deck == shuffled && pot == 0 && cards == [] && callAmount == bigBlind
      ensures statistics == GameStatistics(names, 0, [], map[]) && moveRequests == 0
    {
      playerNames := names;
      numPlayers := |names|;
      this.smallBlind := smallBlind;
      this.bigBlind := bigBlind;
      this.raisesPerRound := raisesPerRound;
      this.triesPerMove := triesPerMove;
      this.numRounds := numRounds;
      this.numEliminations := numEliminations;
      statistics := GameStatistics(names, 0, [], map[]);
      deck := shuffled;
      pot := 0;
      cards := [];
      callAmount := bigBlind;
      moveRequests := 0;
      var states: seq<PlayerState> := [];
      for i := 0 to |names|
        invariant |states| == i
        invariant forall j :: 0 <= j < i ==> states[j] == PlayerState([], 0, StartingMoney(money, j), true, false)
      {
        states := states + [PlayerState([], 0, StartingMoney(money, i), true, false)];
      }
      seats := states;
    }

    /** reset_game: a new shuffled deck, no pot, no cards; each seat is active exactly when it has money. */
    method ResetGame(shuffled: seq<Card>) returns (eliminations: nat)
      requires Valid() && IsShuffle(shuffled)
      modifies this
      ensures Valid()
      ensures deck == shuffled && pot == 0 && cards == [] && callAmount == bigBlind
      ensures forall i :: 0 <= i < numPlayers ==> seats[i] == ResetSeat(old(seats)[i])
      ensures eliminations == CountBroke(old(seats))
      ensures statistics == old(statistics) && moveRequests == old(moveRequests)
    {
      deck := shuffled;
      pot := 0;
      cards := [];
      callAmount := bigBlind;
      eliminations := 0;
      for i := 0 to numPlayers
        invariant Valid()
        invariant forall j :: 0 <= j < i ==> seats[j] == ResetSeat(old(seats)[j])
        invariant forall j :: i <= j < numPlayers ==> seats[j] == old(seats)[j]
        invariant eliminations == CountBroke(old(seats)[..i])
        invariant deck == shuffled && pot == 0 && cards == [] && callAmount == bigBlind
        invariant statistics == old(statistics) && moveRequests == old(moveRequests)
      {
        var p := seats[i];
        var active := p.money > 0;
        if !active {
          eliminations := eliminations + 1;
        }
        seats := seats[i := PlayerState([], 0, p.money, active, false)];
        assert old(seats)[..i + 1][..i] == old(seats)[..i];
      }
      assert old(seats)[..numPlayers] == old(seats);
    }

    /** deal_cards: two cards from the front of the deck to each seat in turn. */
    method DealCards() returns (outcome: Outcome)
      requires Valid()
      modifies this
      ensures Valid()
      ensures outcome.Done? <==> |old(deck)| >= 2 * numPlayers
      ensures outcome.Done? ==> deck == old(deck)[2 * numPlayers..]
      ensures outcome.Done? ==> forall i :: 0 <= i < numPlayers ==>
        seats[i] == old(seats)[i].(hand := old(deck)[2 * i..2 * i + 2])
      ensures outcome.Failed? ==> outcome.failure == DeckExhausted && deck == []
      ensures outcome.Failed? ==> forall i :: 0 <= i < numPlayers ==>
        seats[i] == if 2 * i + 2 <= |old(deck)| then old(seats)[i].(hand := old(deck)[2 * i..2 * i + 2]) else old(seats)[i]
      ensures pot == old(pot) && cards == old(cards) && callAmount == old(callAmount)
      ensures statistics == old(statistics) && moveRequests == old(moveRequests)
    {
      for i := 0 to numPlayers
        invariant Valid()
        invariant 2 * i <= |old(deck)| && deck == old(deck)[2 * i..]
        invariant forall j :: 0 <= j < i ==> seats[j] == old(seats)[j].(hand := old(deck)[2 * j..2 * j + 2])
        invariant forall j :: i <= j < numPlayers ==> seats[j] == old(seats)[j]
        invariant pot == old(pot) && cards == old(cards) && callAmount == old(callAmount)
        invariant statistics == old(statistics) && moveRequests == old(moveRequests)
      {
        if |deck| == 0 {
          return Failed(DeckExhausted);
        }
        var first := deck[0];
        deck := deck[1..];
        if |deck| == 0 {
          return Failed(DeckExhausted);
        }
        var second := deck[0];
        deck := deck[1..];
        assert [first, second] == old(deck)[2 * i..2 * i + 2];
        seats := seats[i := seats[i].(hand := [first, second])];
      }
      return Done;
    }

    /** deal_community_cards: `num` cards from the front of the deck onto the table. */
    method DealCommunityCards(num: int) returns (outcome: Outcome)
      requires Valid()
      modifies this
      ensures Valid()
      ensures outcome.Done? <==> num <= |old(deck)|
      ensures outcome.Done? && num >= 0 ==> cards == old(cards) + old(deck)[..num] && deck == old(deck)[num..]
      ensures outcome.Done? && num < 0 ==> cards == old(cards) && deck == old(deck)
      ensures outcome.Failed? ==> outcome.failure == DeckExhausted && cards == old(cards) + old(deck) && deck == []
      ensures seats == old(seats) && pot == old(pot) && callAmount == old(callAmount)
      ensures statistics == old(statistics) && moveRequests == old(moveRequests)
    {
      var k := 0;
      while k < num
        invariant 0 <= k <= |old(deck)| && (num >= 0 ==> k <= num) && (num < 0 ==> k == 0)
        invariant cards == old(cards) + old(deck)[..k] && deck == old(deck)[k..]
        invariant seats == old(seats) && pot == old(pot) && callAmount == old(callAmount)
        invariant statistics == old(statistics) && moveRequests == old(moveRequests)
        decreases num - k
      {
        if |deck| == 0 {
          assert old(deck)[..k] == old(deck);
          return Failed(DeckExhausted);
        }
        cards := cards + [deck[0]];
        deck := deck[1..];
        assert old(deck)[..k + 1] == old(deck)[..k] + [old(deck)[k]];
        k := k + 1;
      }
      return Done;
    }

    /** handle_forced_bet: seat 0 posts the small blind and seat 1 the big blind; any other seat raises. */
    method HandleForcedBet(seat: nat) returns (outcome: Outcome)
      requires Valid()
      modifies this
      ensures Valid()
      ensures ForcedBet(old(TableView()), seat, smallBlind, bigBlind).Ok? ==>
        outcome == Done && TableView() == ForcedBet(old(TableView()), seat, smallBlind, bigBlind).value
      ensures ForcedBet(old(TableView()), seat, smallBlind, bigBlind).Err? ==> TableView() == old(TableView())
      ensures ForcedBet(old(TableView()), seat, smallBlind, bigBlind) == Err(NotABlind(seat)) ==>
        outcome == Failed(NotForcedToBet(seat))
      ensures ForcedBet(old(TableView()), seat, smallBlind, bigBlind) == Err(UnknownSeat(seat)) ==>
        outcome == Failed(UnknownPlayer(seat))
      ensures deck == old(deck) && cards == old(cards)
      ensures statistics == old(statistics) && moveRequests == old(moveRequests)
    {
      var required: int;
      if seat == SMALL_BLIND_ID {
        required := smallBlind;
      } else if seat == BIG_BLIND_ID {
        required := bigBlind;
      } else if seat < numPlayers {
        return Failed(NotForcedToBet(seat));
      } else {
        return Failed(UnknownPlayer(seat));
      }
      var p := seats[seat];
      if p.money <= required {
        seats := seats[seat := p.(isAllIn := true, bet := p.money, money := 0)];
        pot := pot + p.money;
      } else {
        seats := seats[seat := p.(bet := required, money := p.money - required)];
        pot := pot + required;
      }
      return Done;
    }

    /** handle_player_move: apply the move, or report why it is rejected and change nothing. */
    method HandlePlayerMove(seat: nat, m: Move, raiseAllowed: bool) returns (rejection: Option<MoveError>)
      requires Valid() && seat < numPlayers
      modifies this
      ensures Valid()
      ensures ApplyMove(old(TableView()), seat, m, raiseAllowed).Ok? ==>
        rejection == None && TableView() == ApplyMove(old(TableView()), seat, m, raiseAllowed).value
      ensures ApplyMove(old(TableView()), seat, m, raiseAllowed).Err? ==>
        rejection == Some(ApplyMove(old(TableView()), seat, m, raiseAllowed).error) && TableView() == old(TableView())
      ensures deck == old(deck) && cards == old(cards)
      ensures statistics == old(statistics) && moveRequests == old(moveRequests)
    {
      var p := seats[seat];
      var owed := callAmount - p.bet;
      match m.action {
        case Fold =>
          seats := seats[seat := p.(isActive := false)];
          return None;
        case Call =>
          if p.money > owed {
            seats := seats[seat := p.(money := p.money - owed, bet := p.bet + owed)];
            pot := pot + owed;
          } else {
            seats := seats[seat := p.(isAllIn := true, bet := p.bet + p.money, money := 0)];
            pot := pot + p.money;
          }
          return None;
        case Raise =>
          if !raiseAllowed {
            return Some(RaiseNotAllowed);
          }
          if m.amount > owed {
            if p.money < m.amount {
              return Some(RaiseAboveStack(m.amount, p.money));
            }
            seats := seats[seat := p.(money := p.money - m.amount, bet := p.bet + m.amount)];
            pot := pot + m.amount;
            callAmount := callAmount + m.amount - owed;
            return None;
          }
          return Some(RaiseNotAboveOwed(m.amount, owed));
        case Check =>
          if p.bet == callAmount {
            return None;
          }
          return Some(CheckBelowCall(owed));
      }
    }

    /** One request to the seat: the move the source gives for the next request number, applied when the rules accept it. */
    method RequestMove(seat: nat, raiseAllowed: bool, source: MoveSource) returns (valid: bool, move: Move)
      requires Valid() && seat < numPlayers
      modifies this
      ensures Valid()
      ensures move == source(old(moveRequests), seat) && moveRequests == old(moveRequests) + 1
      ensures valid <==> ApplyMove(old(TableView()), seat, move, raiseAllowed).Ok?
      ensures valid ==> TableView() == ApplyMove(old(TableView()), seat, move, raiseAllowed).value
      ensures !valid ==> TableView() == old(TableView())
      ensures deck == old(deck) && cards == old(cards) && statistics == old(statistics)
    {
      move := source(moveRequests, seat);
      moveRequests := moveRequests + 1;
      var rejection := HandlePlayerMove(seat, move, raiseAllowed);
      valid := rejection.None?;
    }

    /** Asks the seat for moves until one is accepted or the tries run out. */
    method AskForMove(seat: nat, raiseAllowed: bool, source: MoveSource)
      returns (asked: bool, valid: bool, move: Move)
      requires Valid() && seat < numPlayers
      modifies this
      ensures Valid()
      ensures asked <==> triesPerMove > 0
      ensures valid ==> (asked && ApplyMove(old(TableView()), seat, move, raiseAllowed).Ok? &&
        TableView() == ApplyMove(old(TableView()), seat, move, raiseAllowed).value)
      ensures !valid ==> TableView() == old(TableView())
      ensures var first := FirstAccepted(old(TableView()), seat, raiseAllowed, source, old(moveRequests), triesPerMove);
        && (valid <==> first.Some?)
        && (valid ==> move == source(first.value, seat) && moveRequests == first.value + 1)
        && (!valid ==> moveRequests == old(moveRequests) + if triesPerMove > 0 then triesPerMove else 0)
      ensures deck == old(deck) && cards == old(cards) && statistics == old(statistics)
    {
      asked, valid, move := false, false, Move(Fold, 0);
      var tries := 0;
      ghost var t := TableView();
      ghost var first := FirstAccepted(t, seat, raiseAllowed, source, moveRequests, triesPerMove);
      while tries < triesPerMove
        invariant Valid() && TableView() == t && !valid
        invariant asked <==> tries > 0
        invariant tries == 0 || tries <= triesPerMove
        invariant moveRequests == old(moveRequests) + tries
        invariant FirstAccepted(t, seat, raiseAllowed, source, moveRequests, triesPerMove - tries) == first
        invariant deck == old(deck) && cards == old(cards) && statistics == old(statistics)
        decreases triesPerMove - tries
      {
        valid, move := RequestMove(seat, raiseAllowed, source);
        asked := true;
        if valid {
          return;
        }
        tries := tries + 1;
      }
    }

    /**
     * One turn of betting_round: ask for moves until one is accepted, and fold the
     * seat when none is. `raised` tells whether the turn was an accepted raise.
     */
    method PlayTurn(seat: nat, raiseAllowed: bool, source: MoveSource) returns (outcome: Outcome, raised: bool)
      requires Valid() && seat < numPlayers && seats[seat].isActive && !seats[seat].isAllIn
      modifies this
      ensures Valid()
      ensures outcome.Failed? <==> triesPerMove <= 0
      ensures outcome.Failed? ==> outcome.failure == NoMoveMade(seat) && TableView() == old(TableView())
      ensures outcome.Failed? ==> moveRequests == old(moveRequests)
      ensures triesPerMove > 0 ==>
        var turn := PlayedTurn(old(TableView()), seat, raiseAllowed, source, old(moveRequests), triesPerMove);
        TableView() == turn.table && moveRequests == turn.requests && raised == turn.raised
      ensures Chips(TableView()) == old(Chips(TableView()))
      ensures old(PotIsBets(TableView())) ==> PotIsBets(TableView())
      ensures raised ==> raiseAllowed && callAmount > old(callAmount)
      ensures !raised ==> callAmount == old(callAmount)
      ensures forall i :: 0 <= i < numPlayers && i != seat ==> seats[i] == old(seats)[i]
      ensures seats[seat].hand == old(seats)[seat].hand
      ensures outcome.Done? ==> !seats[seat].isActive || seats[seat].isAllIn || seats[seat].bet == callAmount
      ensures deck == old(deck) && cards == old(cards) && statistics == old(statistics)
    {
      var before := TableView();
      var asked, valid, move := AskForMove(seat, raiseAllowed, source);
      if !asked {
        return Failed(NoMoveMade(seat)), false;
      }
      var allowed := raiseAllowed;
      if !valid {
        move := Move(Fold, 0);
        allowed := true;
        var _ := HandlePlayerMove(seat, move, allowed);
      }
      ApplyMoveConservesChips(before, seat, move, allowed);
      ApplyMoveSettlesSeat(before, seat, move, allowed);
      ApplyMoveCallAmount(before, seat, move, allowed);
      if PotIsBets(before) {
        ApplyMoveKeepsPotIsBets(before, seat, move, allowed);
      }
      return Done, move.action == Raise;
    }

    /**
     * The end of betting_round's raise branch: the active seats, in order from the one after
     * the raiser, are appended to the queue unless already in it.
     */
    method Requeue(queue: seq<nat>, seat: nat) returns (r: seq<nat>)
      requires Valid() && seat < numPlayers
      ensures NoDuplicates(queue) ==> NoDuplicates(r)
      ensures |queue| <= |r| && r[..|queue|] == queue
      ensures forall x: nat :: x in r <==> x in queue || (x < numPlayers && seats[x].isActive)
      ensures r == Requeued(queue, ActiveSeats(seats, (seat + 1) % numPlayers))
      ensures r == queue + Unqueued(ActiveSeats(seats, (seat + 1) % numPlayers), queue)
    {
      var more := ActiveSeats(seats, (seat + 1) % numPlayers);
      r := queue;
      for j := 0 to |more|
        invariant Requeued(r, more[j..]) == Requeued(queue, more)
      {
        assert more[j..][1..] == more[j + 1..];
        if more[j] !in r {
          r := r + [more[j]];
        }
      }
      assert r == Requeued(queue, more) by {
        assert more[|more|..] == [];
      }
      RequeuedAppendsUnqueued(queue, more);
    }

    /**
     * The body of betting_round's loop for the seat just taken from the queue: an
     * all-in seat is skipped; otherwise the seat plays its turn, and an accepted
     * raise queues every active seat again.
     */
    method TakeTurn(seat: nat, queue: seq<nat>, raises: nat, source: MoveSource)
      returns (outcome: Outcome, next: seq<nat>, raisesAfter: nat)
      requires Valid() && seat < numPlayers && seats[seat].isActive
      modifies this
      ensures Valid()
      ensures (RoundState(TableView(), raisesAfter, moveRequests), outcome, next) ==
        TurnStep(old(TableView()), seat, queue, raises, old(moveRequests), raisesPerRound, triesPerMove, source)
      ensures deck == old(deck) && cards == old(cards) && statistics == old(statistics)
    {
      next, raisesAfter := queue, raises;
      if seats[seat].isAllIn {
        return Done, next, raisesAfter;
      }
      ghost var before, requests := TableView(), moveRequests;
      var raised: bool;
      outcome, raised := PlayTurn(seat, raises < raisesPerRound, source);
      if outcome.Failed? {
        return;
      }
      ghost var turn := PlayedTurn(before, seat, raises < raisesPerRound, source, requests, triesPerMove);
      assert TableView() == turn.table && moveRequests == turn.requests && raised == turn.raised;
      if raised {
        raisesAfter := raises + 1;
        next := Requeue(queue, seat);
        assert (RoundState(TableView(), raisesAfter, moveRequests), outcome, next) ==
          TurnStep(before, seat, queue, raises, requests, raisesPerRound, triesPerMove, source);
      } else {
        assert (RoundState(TableView(), raisesAfter, moveRequests), outcome, next) ==
          TurnStep(before, seat, queue, raises, requests, raisesPerRound, triesPerMove, source);
      }
    }

    /**
     * betting_round: seats move in queue order; all-in seats are skipped; a seat with no
     * accepted move in `tries_per_move` attempts is folded; an accepted raise queues
     * every active seat that is not queued yet, the raiser included.
     */
    method BettingRound(start: nat, source: MoveSource) returns (outcome: Outcome, raises: nat)
      requires Valid() && start < numPlayers
      modifies this
      ensures Valid()
      ensures Chips(TableView()) == old(Chips(TableView()))
      ensures old(PotIsBets(TableView())) ==> PotIsBets(TableView())
      ensures callAmount >= old(callAmount)
      ensures raises <= if raisesPerRound > 0 then raisesPerRound else 0
      ensures OnlyBettorsChange(old(seats), seats)
      ensures outcome.Done? ==> forall i :: 0 <= i < numPlayers && seats[i].isActive && !seats[i].isAllIn ==>
        seats[i].bet == callAmount
      ensures outcome.Failed? ==> outcome.failure.NoMoveMade? && triesPerMove <= 0
      ensures (RoundState(TableView(), raises, moveRequests), outcome) ==
        RoundFrom(old(TableView()), ActiveSeats(old(seats), start), 0, old(moveRequests), raisesPerRound, triesPerMove, source)
      ensures deck == old(deck) && cards == old(cards) && statistics == old(statistics)
    {
      raises := 0;
      var queue: seq<nat> := ActiveSeats(seats, start);
      ghost var goal := RoundFrom(TableView(), queue, 0, moveRequests, raisesPerRound, triesPerMove, source);
      RoundFromSettles(TableView(), queue, 0, moveRequests, raisesPerRound, triesPerMove, source);
      while |queue| > 0
        invariant Valid()
        invariant QueueInvariant(TableView(), queue)
        invariant RoundFrom(TableView(), queue, raises, moveRequests, raisesPerRound, triesPerMove, source) == goal
        invariant deck == old(deck) && cards == old(cards) && statistics == old(statistics)
        decreases if raises < raisesPerRound then raisesPerRound - raises else 0, |queue|
      {
        var seat := queue[0];
        ghost var t0, q0, r0, m0 := TableView(), queue, raises, moveRequests;
        TurnStepKeepsQueue(t0, q0, r0, m0, raisesPerRound, triesPerMove, source);
        outcome, queue, raises := TakeTurn(seat, queue[1..], raises, source);
        if outcome.Failed? {
          return outcome, raises;
        }
        assert RoundFrom(TableView(), queue, raises, moveRequests, raisesPerRound, triesPerMove, source) ==
          RoundFrom(t0, q0, r0, m0, raisesPerRound, triesPerMove, source);
      }
      return Done, raises;
    }

    /** The first loop of showdown: the best hand of each active seat, in seat order. */
    method EvaluateShownHands() returns (hands: Option<seq<Hand>>)
      requires Valid()
      ensures hands == ShownHands(seats, cards, ActiveSeats(seats, 0))
    {
      var show := ActiveSeats(seats, 0);
      var found: seq<Hand> := [];
      for k := 0 to |show|
        invariant |found| == k
        invariant forall j :: 0 <= j < k ==>
          |seats[show[j]].hand + cards| > 0 && found[j] == BestHand(seats[show[j]].hand + cards)
      {
        var shown := seats[show[k]].hand + cards;
        if |shown| == 0 {
          return None;
        }
        found := found + [BestHand(shown)];
      }
      assert AllShown(seats, cards, show);
      assert found == ShownHands(seats, cards, show).value;
      return Some(found);
    }

    /**
     * The statistics lines of showdown: the winner's gain is appended first (a KeyError there
     * changes nothing), then every other seat's loss in seat order, up to the first seat with
     * no entry, which raises KeyError after the appends before it.
     */
    method RecordGains(winner: nat) returns (outcome: Outcome)
      requires Valid() && winner < numPlayers
      modifies this
      ensures Valid()
      ensures (statistics.moneyGained, outcome) == RecordedGains(old(statistics.moneyGained), seats, pot, winner)
      ensures statistics == old(statistics).(moneyGained := statistics.moneyGained)
      ensures seats == old(seats) && pot == old(pot) && callAmount == old(callAmount)
      ensures deck == old(deck) && cards == old(cards) && moveRequests == old(moveRequests)
    {
      var before := statistics.moneyGained;
      if winner !in before {
        return Failed(MissingGainsEntry(winner));
      }
      var gained: map<nat, seq<int>> := before[winner := before[winner] + [pot - seats[winner].bet]];
      ghost var goal := GainsFrom(gained, seats, pot, winner, 0);
      outcome := Done;
      for i := 0 to numPlayers
        invariant outcome.Done? ==> GainsFrom(gained, seats, pot, winner, i) == goal
        invariant outcome.Failed? ==> (gained, outcome) == goal
      {
        if outcome.Done? && i != winner {
          if i !in gained {
            outcome := Failed(MissingGainsEntry(i));
          } else {
            gained := gained[i := gained[i] + [-seats[i].bet]];
          }
        }
      }
      statistics := statistics.(moneyGained := gained);
    }

    /** showdown up to get_winner: the winning position among the active seats, or the exception raised. */
    method DecideWinner() returns (r: Result<nat, Failure>)
      requires Valid()
      ensures r == ShowdownWinner(seats, cards)
      ensures r.Ok? ==> r.value < numPlayers
    {
      var hands := EvaluateShownHands();
      if hands.None? {
        return Err(NoCardsToEvaluate);
      }
      var winner := GetWinner(hands.value);
      if winner.None? {
        return Err(NoShownHand);
      }
      if winner.value.Split? {
        return Err(TiedWinnerIndex);
      }
      return Ok(winner.value.index);
    }

    /** The rest of showdown: seat `winner` takes the pot and the statistics record the round. */
    method PayPot(winner: nat) returns (outcome: Outcome)
      requires Valid() && winner < numPlayers
      modifies this
      ensures Valid()
      ensures seats == Paid(old(seats), winner, old(pot))
      ensures statistics.winners == old(statistics.winners) + [winner]
      ensures (statistics.moneyGained, outcome) == RecordedGains(old(statistics.moneyGained), seats, pot, winner)
      ensures statistics == old(statistics).(winners := statistics.winners, moneyGained := statistics.moneyGained)
      ensures pot == old(pot) && callAmount == old(callAmount) && deck == old(deck) && cards == old(cards)
      ensures moveRequests == old(moveRequests)
    {
      seats := seats[winner := seats[winner].(money := seats[winner].money + pot)];
      statistics := statistics.(winners := statistics.winners + [winner]);
      outcome := RecordGains(winner);
    }

    /**
     * showdown: the position get_winner picks is paid the pot and the statistics record the
     * round; when the showdown raises first, nothing changes.
     */
    method Showdown() returns (outcome: Outcome)
      requires Valid()
      modifies this
      ensures Valid()
      ensures (seats, statistics, outcome) == ShowdownResult(old(seats), cards, pot, old(statistics))
      ensures forall i :: 0 <= i < numPlayers ==> seats[i].hand == old(seats)[i].hand
      ensures (statistics, outcome) == ShowdownRecord(seats, cards, pot, old(statistics))
      ensures ShowdownWinner(seats, cards).Ok? ==> SumMoney(seats) == old(SumMoney(seats)) + pot
      ensures pot == old(pot) && callAmount == old(callAmount) && deck == old(deck) && cards == old(cards)
      ensures moveRequests == old(moveRequests)
    {
      ShowdownResultRecords(seats, cards, pot, statistics);
      var decided := DecideWinner();
      if decided.Err? {
        return Failed(decided.error);
      }
      outcome := PayPot(decided.value);
    }

    /** A community deal followed by a betting round from the small blind, as play_round does three times. */
    method DealAndBet(num: nat, source: MoveSource) returns (outcome: Outcome)
      requires Valid()
      modifies this
      ensures Valid()
      ensures (State(), outcome) == DealThenBet(old(State()), num, Settings(), source)
      ensures DealsAndSettles(old(State()), num, (State(), outcome), triesPerMove)
      ensures num > |old(deck)| ==> outcome == Failed(DeckExhausted)
      ensures Chips(TableView()) == old(Chips(TableView()))
      ensures statistics == old(statistics)
    {
      DealThenBetSettles(State(), num, Settings(), source);
      outcome := DealCommunityCards(num);
      if outcome.Failed? {
        return;
      }
      var raises;
      outcome, raises := BettingRound(SMALL_BLIND_ID, source);
    }

    /** The start of play_round: the small and the big blind are posted, then the hands are dealt. */
    method PostBlindsAndDeal() returns (outcome: Outcome)
      requires Valid()
      modifies this
      ensures Valid()
      ensures outcome.Failed? <==> |old(deck)| < 2 * numPlayers
      ensures outcome.Failed? ==> outcome == Failed(DeckExhausted)
      ensures outcome.Done? ==> deck == old(deck)[2 * numPlayers..]
      ensures outcome.Done? ==> forall i :: 0 <= i < numPlayers ==> seats[i].hand == old(deck)[2 * i..2 * i + 2]
      ensures var blinds := Blinds(old(TableView()), Settings());
        && pot == blinds.pot && callAmount == blinds.callAmount
        && forall i :: 0 <= i < numPlayers ==> seats[i].(hand := blinds.seats[i].hand) == blinds.seats[i]
      ensures Chips(TableView()) == old(Chips(TableView()))
      ensures State() == PostedAndDealt(old(State()), Settings())
      ensures cards == old(cards) && statistics == old(statistics) && moveRequests == old(moveRequests)
    {
      var _ := HandleForcedBet(SMALL_BLIND_ID);
      var _ := HandleForcedBet(BIG_BLIND_ID);
      ghost var blinds := TableView();
      assert blinds == Blinds(old(TableView()), Settings());
      outcome := DealCards();
      assert seats == DealtSeats(blinds.seats, old(deck));
    }

    /** The flop, the turn and the river of play_round, each dealt and then bet on from the small blind. */
    method Streets(source: MoveSource) returns (outcome: Outcome)
      requires Valid()
      modifies this
      ensures Valid()
      ensures (State(), outcome) == StreetsFrom(old(State()), Settings(), source)
      ensures DealsAndSettles(old(State()), 5, (State(), outcome), triesPerMove)
      ensures Chips(TableView()) == old(Chips(TableView()))
      ensures statistics == old(statistics)
    {
      StreetsFromDeals(State(), Settings(), source);
      outcome := DealAndBet(3, source);
      if outcome.Failed? {
        return;
      }
      outcome := DealAndBet(1, source);
      if outcome.Failed? {
        return;
      }
      outcome := DealAndBet(1, source);
    }

    /**
     * The betting of play_round once the hands are dealt: before the flop from the seat after
     * the big blind, then on the flop, the turn and the river.
     */
    method BetToRiver(source: MoveSource) returns (outcome: Outcome)
      requires Valid()
      modifies this
      ensures Valid()
      ensures (State(), outcome) == BettingToRiver(old(State()), Settings(), source)
      ensures DealsAndSettles(old(State()), 5, (State(), outcome), triesPerMove)
      ensures Chips(TableView()) == old(Chips(TableView()))
      ensures statistics == old(statistics)
    {
      BettingToRiverDeals(State(), Settings(), source);
      var raises;
      outcome, raises := BettingRound((BIG_BLIND_ID + 1) % numPlayers, source);
      if outcome.Failed? {
        return;
      }
      outcome := Streets(source);
    }

    /**
     * The rest of play_round once the hands are dealt: the four betting rounds and showdown.
     * With five cards left and at least one try per move, the round reaches showdown.
     */
    method BetAndShowdown(source: MoveSource) returns (outcome: Outcome)
      requires Valid()
      modifies this
      ensures Valid()
      ensures (State(), statistics, outcome) == BetThenShow(old(State()), old(statistics), Settings(), source)
      ensures ShowsDown(old(State()), (State(), statistics, outcome), old(statistics), triesPerMove)
    {
      BetThenShowShows(State(), statistics, Settings(), source);
      outcome := BetToRiver(source);
      if outcome.Failed? {
        return;
      }
      outcome := Showdown();
    }

    /**
     * play_round: blinds, the deal, a betting round before the flop and after each of the
     * flop, turn and river, then showdown. A round with enough cards in the deck and at least
     * one try per move reaches showdown; there the winner's position is paid and recorded.
     */
    method PlayRound(source: MoveSource) returns (outcome: Outcome, ghost reached: bool)
      requires Valid()
      modifies this
      ensures Valid()
      ensures (State(), statistics, outcome) == RoundResult(old(State()), old(statistics), Settings(), source)
      ensures reached <==> AtShowdown(outcome)
      ensures RoundShows(old(State()), (State(), statistics, outcome), old(statistics), triesPerMove)
      ensures outcome.Done? ==> forall i :: 0 <= i < numPlayers ==> i in old(statistics.moneyGained)
      ensures statistics == old(statistics).(winners := statistics.winners, moneyGained := statistics.moneyGained)
    {
      RoundResultShows(State(), statistics, Settings(), source);
      RoundDoneHasGains(State(), statistics, Settings(), source);
      reached := false;
      outcome := PostBlindsAndDeal();
      if outcome.Failed? {
        return;
      }
      outcome := BetAndShowdown(source);
      reached := AtShowdown(outcome);
    }

    /**
     * One pass of play_game's loop: a round, the round counter, and the reset with the next
     * shuffled deck. A round needs every seat's gains entry to complete.
     */
    method PlayRoundAndReset(shuffled: seq<Card>, source: MoveSource) returns (outcome: Outcome, eliminations: nat)
      requires Valid() && IsShuffle(shuffled)
      modifies this
      ensures Valid()
      ensures (Match(State(), statistics), outcome, eliminations) ==
        RoundAndReset(Match(old(State()), old(statistics)), shuffled, Settings(), source)
      ensures RoundShows(old(State()), RoundResult(old(State()), old(statistics), Settings(), source), old(statistics),
                         triesPerMove)
      ensures outcome.Done? ==>
        && eliminations == CountInactive(seats)
        && statistics.numRounds == old(statistics.numRounds) + 1
        && 0 in old(statistics.moneyGained)
      ensures outcome.Done? ==>
        && deck == shuffled && pot == 0 && cards == [] && callAmount == bigBlind
        && forall i :: 0 <= i < numPlayers ==>
          seats[i] == ResetSeat(RoundResult(old(State()), old(statistics), Settings(), source).0.table.seats[i])
      ensures outcome.Failed? ==> statistics.numRounds == old(statistics.numRounds)
    {
      RoundResultShows(State(), statistics, Settings(), source);
      ghost var reached;
      outcome, reached := PlayRound(source);
      ghost var played := (State(), statistics, outcome);
      if outcome.Failed? {
        return outcome, 0;
      }
      eliminations := CountAndReset(shuffled);
      assert (Match(State(), statistics), outcome, eliminations) == ResetAfterRound(played, shuffled, bigBlind);
    }

    /** The end of a pass of play_game's loop: the round is counted, then reset_game deals `shuffled`. */
    method CountAndReset(shuffled: seq<Card>) returns (eliminations: nat)
      requires Valid() && IsShuffle(shuffled)
      modifies this
      ensures Valid()
      ensures Match(State(), statistics) ==
        Match(ResetPlay(old(State()), shuffled, bigBlind), old(statistics).(numRounds := old(statistics.numRounds) + 1))
      ensures eliminations == CountBroke(old(seats)) == CountInactive(seats)
      ensures (Match(State(), statistics), Done, eliminations) ==
        ResetAfterRound((old(State()), old(statistics), Done), shuffled, bigBlind)
      ensures deck == shuffled && pot == 0 && cards == [] && callAmount == bigBlind
      ensures forall i :: 0 <= i < numPlayers ==> seats[i] == ResetSeat(old(seats)[i])
    {
      statistics := statistics.(numRounds := statistics.numRounds + 1);
      eliminations := ResetGame(shuffled);
      ResetPlayIs(old(State()), State(), shuffled, bigBlind);
    }

    /**
     * play_game: reset, then play rounds while fewer than num_rounds have been played AND
     * fewer than num_eliminations seats are out; every reset takes the next shuffled deck.
     */
    method PlayGame(shuffles: nat -> seq<Card>, source: MoveSource) returns (outcome: Outcome, stats: GameStatistics)
      requires Valid() && forall k :: IsShuffle(shuffles(k))
      modifies this
      ensures Valid() && stats == statistics
      ensures (Match(State(), statistics), outcome) ==
        GameResult(Match(old(State()), old(statistics)), shuffles, Settings(), source)
      ensures GameStops(Match(old(State()), old(statistics)), (Match(State(), statistics), outcome), Settings(), shuffles(0))
      ensures statistics.numRounds <= if old(statistics.numRounds) < numRounds then numRounds else old(statistics.numRounds)
    {
      ghost var start := Match(State(), statistics);
      var eliminations: nat := ResetGame(shuffles(0));
      ResetPlayIs(start.play, State(), shuffles(0), bigBlind);
      assert GameResult(start, shuffles, Settings(), source) ==
        GameFrom(Match(State(), statistics), eliminations, 1, shuffles, Settings(), source);
      outcome := PlayRounds(eliminations, 1, shuffles, source);
      GameResultStops(start, shuffles, Settings(), source);
      stats := statistics;
    }

    /**
     * play_game's loop, from a state with `eliminations` broke seats after `resets` resets:
     * rounds until num_rounds is reached, num_eliminations seats are out, or a round fails.
     */
    method PlayRounds(eliminations: nat, resets: nat, shuffles: nat -> seq<Card>, source: MoveSource)
      returns (outcome: Outcome)
      requires Valid() && forall k :: IsShuffle(shuffles(k))
      modifies this
      ensures Valid()
      ensures (Match(State(), statistics), outcome) ==
        GameFrom(Match(old(State()), old(statistics)), eliminations, resets, shuffles, Settings(), source)
    {
      ghost var goal := GameFrom(Match(State(), statistics), eliminations, resets, shuffles, Settings(), source);
      var out: nat := eliminations;
      var next: nat := resets;
      while statistics.numRounds < numRounds && out < numEliminations
        invariant Valid()
        invariant GameFrom(Match(State(), statistics), out, next, shuffles, Settings(), source) == goal
        decreases numRounds - statistics.numRounds
      {
        outcome, out := PlayPass(out, next, shuffles, source);
        if outcome.Failed? {
          return;
        }
        next := next + 1;
      }
      GameFromDone(Match(State(), statistics), out, next, shuffles, Settings(), source);
      outcome := Done;
    }

    /** One pass of play_game's loop, stated as a step of GameFrom. */
    method PlayPass(eliminations: nat, resets: nat, shuffles: nat -> seq<Card>, source: MoveSource)
      returns (outcome: Outcome, out: nat)
      requires Valid() && forall k :: IsShuffle(shuffles(k))
      requires statistics.numRounds < numRounds && eliminations < numEliminations
      modifies this
      ensures Valid()
      ensures outcome.Done? ==> statistics.numRounds == old(statistics.numRounds) + 1
      ensures outcome.Failed? ==>
        (Match(State(), statistics), outcome) ==
          GameFrom(Match(old(State()), old(statistics)), eliminations, resets, shuffles, Settings(), source)
      ensures outcome.Done? ==>
        GameFrom(Match(State(), statistics), out, resets + 1, shuffles, Settings(), source) ==
          GameFrom(Match(old(State()), old(statistics)), eliminations, resets, shuffles, Settings(), source)
    {
      GameFromStep(Match(State(), statistics), eliminations, resets, shuffles, Settings(), source);
      outcome, out := PlayRoundAndReset(shuffles(resets), source);
    }
  }
}
