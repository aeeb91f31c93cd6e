/**
 * The betting rules of backend/models/poker_game.py as functions on a table value.
 *
 * A `Table` is the part of the game state that the betting rules read and write:
 * the per-seat `player_states` entries, the pot and the call amount. `ApplyMove`
 * is handle_player_move, `ForcedBet` is handle_forced_bet and `ActiveSeats` is
 * get_active_players. The class in the Game module updates its fields exactly as
 * these functions say; the lemmas here state what the rules keep invariant.
 */
module Betting {
  import opened Util
  import opened Cards
  import opened Moves

  /** One entry of player_states. */
  datatype PlayerState = PlayerState(hand: seq<Card>, bet: int, money: int, isActive: bool, isAllIn: bool)

  /** The seats, the pot and the call amount. */
  datatype Table = Table(seats: seq<PlayerState>, pot: int, callAmount: int)

  /** The blinds are posted by seats 0 and 1. */
  const SMALL_BLIND_ID: nat := 0
  const BIG_BLIND_ID: nat := 1

  // ---------------------------------------------------------------------------
  // Chip accounting

  function SumMoney(seats: seq<PlayerState>): int {
    if |seats| == 0 then 0 else SumMoney(seats[..|seats| - 1]) + seats[|seats| - 1].money
  }

  function SumBets(seats: seq<PlayerState>): int {
    if |seats| == 0 then 0 else SumBets(seats[..|seats| - 1]) + seats[|seats| - 1].bet
  }

  /** All chips on the table: every stack plus the pot. */
  function Chips(t: Table): int {
    SumMoney(t.seats) + t.pot
  }

  /** The pot holds exactly what the seats have bet. */
  predicate PotIsBets(t: Table) {
    t.pot == SumBets(t.seats)
  }

  lemma {:induction false} SumMoneyUpdate(seats: seq<PlayerState>, i: nat, p: PlayerState)
    requires i < |seats|
    ensures SumMoney(seats[i := p]) == SumMoney(seats) - seats[i].money + p.money
    decreases |seats|
  {
    var last := |seats| - 1;
    if i < last {
      assert seats[i := p][..last] == seats[..last][i := p];
      SumMoneyUpdate(seats[..last], i, p);
    } else {
      assert seats[i := p][..last] == seats[..last];
    }
  }

  /** Dealing cards or changing flags moves no money. */
  lemma {:induction false} SumMoneySameStacks(a: seq<PlayerState>, b: seq<PlayerState>)
    requires |a| == |b| && forall i :: 0 <= i < |a| ==> a[i].money == b[i].money
    ensures SumMoney(a) == SumMoney(b)
  {
    if |a| > 0 {
      var last := |a| - 1;
      SumMoneySameStacks(a[..last], b[..last]);
    }
  }

  lemma {:induction false} SumBetsUpdate(seats: seq<PlayerState>, i: nat, p: PlayerState)
    requires i < |seats|
    ensures SumBets(seats[i := p]) == SumBets(seats) - seats[i].bet + p.bet
    decreases |seats|
  {
    var last := |seats| - 1;
    if i < last {
      assert seats[i := p][..last] == seats[..last][i := p];
      SumBetsUpdate(seats[..last], i, p);
    } else {
      assert seats[i := p][..last] == seats[..last];
    }
  }

  // ---------------------------------------------------------------------------
  // get_active_players

  /** The seat visited at step `k` of `range(start, n + start)` taken modulo n. */
  function Wrap(n: nat, start: nat, k: nat): (i: nat)
    requires start < n && k < n
    ensures i < n
  {
    if start + k < n then start + k else start + k - n
  }

  /** How many steps after `start` seat `i` comes in wrap-around order. */
  function Offset(n: nat, start: nat, i: nat): (k: nat)
    requires start < n && i < n
    ensures k < n
  {
    if i >= start then i - start else i + n - start
  }

  /** The active seats among steps k.. of the wrap-around walk from `start`. */
  function ActiveScan(seats: seq<PlayerState>, start: nat, k: nat): (r: seq<nat>)
    requires start < |seats|
    ensures forall a :: 0 <= a < |r| ==>
      r[a] < |seats| && seats[r[a]].isActive && k <= Offset(|seats|, start, r[a])
    ensures forall i :: 0 <= i < |seats| && seats[i].isActive && k <= Offset(|seats|, start, i) ==> i in r
    ensures forall a, b :: 0 <= a < b < |r| ==> Offset(|seats|, start, r[a]) < Offset(|seats|, start, r[b])
    ensures k <= |seats| ==> |r| <= |seats| - k
    decreases |seats| - k
  {
    if k >= |seats| then []
    else
      var i := Wrap(|seats|, start, k);
      var rest := ActiveScan(seats, start, k + 1);
      assert Offset(|seats|, start, i) == k;
      assert forall j :: 0 <= j < |seats| && Offset(|seats|, start, j) == k ==> j == i;
      if seats[i].isActive then [i] + rest else rest
  }

  /** get_active_players(start): the active seats, each once, in seat order wrapping round from `start`. */
  function ActiveSeats(seats: seq<PlayerState>, start: nat): (r: seq<nat>)
    requires start < |seats|
    ensures forall a :: 0 <= a < |r| ==> r[a] < |seats|
    ensures forall i :: i in r <==> 0 <= i < |seats| && seats[i].isActive
    ensures forall a, b :: 0 <= a < b < |r| ==> Offset(|seats|, start, r[a]) < Offset(|seats|, start, r[b])
    ensures NoDuplicates(r) && |r| <= |seats|
  {
    ActiveScan(seats, start, 0)
  }

  /** The scan reads only which seats are active. */
  lemma {:induction false} ActiveScanReadsActivity(a: seq<PlayerState>, b: seq<PlayerState>, start: nat, k: nat)
    requires start < |a| == |b| && forall i :: 0 <= i < |a| ==> a[i].isActive == b[i].isActive
    ensures ActiveScan(a, start, k) == ActiveScan(b, start, k)
    decreases |a| - k
  {
    if k < |a| {
      ActiveScanReadsActivity(a, b, start, k + 1);
    }
  }

  /** An active seat `start` comes first; every other active seat follows it. */
  lemma ActiveSeatsStartFirst(seats: seq<PlayerState>, start: nat)
    requires start < |seats| && seats[start].isActive
    ensures |ActiveSeats(seats, start)| > 0 && ActiveSeats(seats, start)[0] == start
  {
    var r := ActiveSeats(seats, start);
    assert start in r;
    var a :| 0 <= a < |r| && r[a] == start;
  }

  // ---------------------------------------------------------------------------
  // handle_player_move

  /** Why handle_player_move answers `False`; the message text is not modelled. */
  datatype MoveError =
    | RaiseNotAllowed                            // the raise limit of the round is reached
    | RaiseAboveStack(amount: int, money: int)   // the raise is more than the seat's money
    | RaiseNotAboveOwed(amount: int, owed: int)  // the raise does not exceed what the seat owes
    | CheckBelowCall(owed: int)                  // a check while the bet is not the call amount

  /** `call_amount` in handle_player_move: what the seat still owes. */
  function Owed(t: Table, seat: nat): int
    requires seat < |t.seats|
  {
    t.callAmount - t.seats[seat].bet
  }

  /** handle_player_move: the new table, or the reason the move is rejected (nothing changes then). */
  function ApplyMove(t: Table, seat: nat, m: Move, raiseAllowed: bool): (r: Result<Table, MoveError>)
    requires seat < |t.seats|
    ensures r.Err? <==>
      (m.action == Raise && (!raiseAllowed || m.amount <= Owed(t, seat) || t.seats[seat].money < m.amount))
      || (m.action == Check && t.seats[seat].bet != t.callAmount)
    ensures r.Ok? ==> |r.value.seats| == |t.seats|
    ensures r.Ok? ==> forall i :: 0 <= i < |t.seats| && i != seat ==> r.value.seats[i] == t.seats[i]
    ensures r.Ok? ==> r.value.seats[seat].hand == t.seats[seat].hand
    ensures m.action == Fold ==> r == Ok(t.(seats := t.seats[seat := t.seats[seat].(isActive := false)]))
    ensures m.action == Check && r.Ok? ==> r.value == t
    ensures r.Ok? && m.action != Fold ==> r.value.seats[seat].isActive == t.seats[seat].isActive
  {
    var p := t.seats[seat];
    var owed := Owed(t, seat);
    match m.action
    case Fold => Ok(t.(seats := t.seats[seat := p.(isActive := false)]))
    case Call =>
      if p.money > owed then
        Ok(Table(t.seats[seat := p.(money := p.money - owed, bet := p.bet + owed)], t.pot + owed, t.callAmount))
      else
        Ok(Table(t.seats[seat := p.(isAllIn := true, bet := p.bet + p.money, money := 0)], t.pot + p.money, t.callAmount))
    case Raise =>
      if !raiseAllowed then Err(RaiseNotAllowed)
      else if m.amount > owed then
        if p.money < m.amount then Err(RaiseAboveStack(m.amount, p.money))
        else
          Ok(Table(t.seats[seat := p.(money := p.money - m.amount, bet := p.bet + m.amount)],
                   t.pot + m.amount, t.callAmount + m.amount - owed))
      else Err(RaiseNotAboveOwed(m.amount, owed))
    case Check =>
      if p.bet == t.callAmount then Ok(t) else Err(CheckBelowCall(owed))
  }

  /** Rejections are reported in the order the source tests them. */
  lemma ApplyMoveRejections(t: Table, seat: nat, m: Move, raiseAllowed: bool)
    requires seat < |t.seats|
    ensures m.action == Raise && !raiseAllowed ==> ApplyMove(t, seat, m, raiseAllowed) == Err(RaiseNotAllowed)
    ensures m.action == Raise && raiseAllowed && m.amount <= Owed(t, seat) ==>
      ApplyMove(t, seat, m, raiseAllowed) == Err(RaiseNotAboveOwed(m.amount, Owed(t, seat)))
    ensures m.action == Raise && raiseAllowed && m.amount > Owed(t, seat) && t.seats[seat].money < m.amount ==>
      ApplyMove(t, seat, m, raiseAllowed) == Err(RaiseAboveStack(m.amount, t.seats[seat].money))
    ensures m.action == Check && t.seats[seat].bet != t.callAmount ==>
      ApplyMove(t, seat, m, raiseAllowed) == Err(CheckBelowCall(Owed(t, seat)))
  {
  }

  /** An accepted move moves chips between the seat's stack and the pot and creates none. */
  lemma ApplyMoveConservesChips(t: Table, seat: nat, m: Move, raiseAllowed: bool)
    requires seat < |t.seats| && ApplyMove(t, seat, m, raiseAllowed).Ok?
    ensures Chips(ApplyMove(t, seat, m, raiseAllowed).value) == Chips(t)
  {
    var u := ApplyMove(t, seat, m, raiseAllowed).value;
    assert u.seats == t.seats[seat := u.seats[seat]];
    SumMoneyUpdate(t.seats, seat, u.seats[seat]);
  }

  /** An accepted move adds to the pot exactly what it adds to the seat's bet. */
  lemma ApplyMoveKeepsPotIsBets(t: Table, seat: nat, m: Move, raiseAllowed: bool)
    requires seat < |t.seats| && ApplyMove(t, seat, m, raiseAllowed).Ok? && PotIsBets(t)
    ensures PotIsBets(ApplyMove(t, seat, m, raiseAllowed).value)
  {
    var u := ApplyMove(t, seat, m, raiseAllowed).value;
    assert u.seats == t.seats[seat := u.seats[seat]];
    SumBetsUpdate(t.seats, seat, u.seats[seat]);
  }

  /** After an accepted move the seat has folded, is all in, or has bet exactly the call amount. */
  lemma ApplyMoveSettlesSeat(t: Table, seat: nat, m: Move, raiseAllowed: bool)
    requires seat < |t.seats| && ApplyMove(t, seat, m, raiseAllowed).Ok?
    ensures var u := ApplyMove(t, seat, m, raiseAllowed).value;
      !u.seats[seat].isActive || u.seats[seat].isAllIn || u.seats[seat].bet == u.callAmount
  {
  }

  /** Only an accepted raise changes the call amount, and it raises it to the raiser's new bet. */
  lemma ApplyMoveCallAmount(t: Table, seat: nat, m: Move, raiseAllowed: bool)
    requires seat < |t.seats| && ApplyMove(t, seat, m, raiseAllowed).Ok?
    ensures var u := ApplyMove(t, seat, m, raiseAllowed).value;
      && (m.action != Raise ==> u.callAmount == t.callAmount)
      && (m.action == Raise ==>
            u.callAmount == t.callAmount + m.amount - Owed(t, seat) > t.callAmount
            && u.seats[seat].bet == u.callAmount && raiseAllowed)
  {
  }

  /** A call the seat cannot cover moves its whole stack to the pot and puts it all in. */
  lemma CallAllIn(t: Table, seat: nat, raiseAllowed: bool)
    requires seat < |t.seats| && t.seats[seat].money <= Owed(t, seat)
    ensures var u := ApplyMove(t, seat, Move(Call, 0), raiseAllowed).value;
      && u.seats[seat].money == 0 && u.seats[seat].isAllIn
      && u.seats[seat].bet == t.seats[seat].bet + t.seats[seat].money
      && u.pot == t.pot + t.seats[seat].money
  {
  }

  /** A call the seat can cover leaves its bet equal to the call amount. */
  lemma CallMatches(t: Table, seat: nat, amount: nat, raiseAllowed: bool)
    requires seat < |t.seats| && t.seats[seat].money > Owed(t, seat)
    ensures var u := ApplyMove(t, seat, Move(Call, amount), raiseAllowed).value;
      && u.seats[seat].bet == t.callAmount && !u.seats[seat].isAllIn == !t.seats[seat].isAllIn
      && u.seats[seat].money == t.seats[seat].money - Owed(t, seat)
  {
  }

  // ---------------------------------------------------------------------------
  // handle_forced_bet

  /**
   * Why handle_forced_bet raises: a seat that is neither blind (ValueError), or a seat id with no
   * player name, whose lookup in the error message raises KeyError first.
   */
  datatype ForcedBetError = NotABlind(seat: nat) | UnknownSeat(seat: nat)

  /** Posting a blind: a stack of at most the blind goes all in; the bet is set, not added to. */
  function PostBlind(t: Table, seat: nat, blind: int): (r: Table)
    requires seat < |t.seats|
    ensures |r.seats| == |t.seats| && r.callAmount == t.callAmount
    ensures forall i :: 0 <= i < |t.seats| && i != seat ==> r.seats[i] == t.seats[i]
  {
    var p := t.seats[seat];
    if p.money <= blind then
      Table(t.seats[seat := p.(isAllIn := true, bet := p.money, money := 0)], t.pot + p.money, t.callAmount)
    else
      Table(t.seats[seat := p.(bet := blind, money := p.money - blind)], t.pot + blind, t.callAmount)
  }

  /**
   * handle_forced_bet: seat 0 posts the small blind, seat 1 the big blind, any other seat is an
   * error; building its message reads the seat's name, which a seat id past the last seat lacks.
   */
  function ForcedBet(t: Table, seat: nat, smallBlind: int, bigBlind: int): (r: Result<Table, ForcedBetError>)
    requires |t.seats| >= 2
    ensures r.Err? <==> seat != SMALL_BLIND_ID && seat != BIG_BLIND_ID
    ensures r.Err? ==> r.error == (if seat < |t.seats| then NotABlind(seat) else UnknownSeat(seat))
  {
    if seat == SMALL_BLIND_ID then Ok(PostBlind(t, seat, smallBlind))
    else if seat == BIG_BLIND_ID then Ok(PostBlind(t, seat, bigBlind))
    else if seat < |t.seats| then Err(NotABlind(seat))
    else Err(UnknownSeat(seat))
  }

  /** A blind moves chips from the stack to the pot and creates none. */
  lemma PostBlindConservesChips(t: Table, seat: nat, blind: int)
    requires seat < |t.seats|
    ensures Chips(PostBlind(t, seat, blind)) == Chips(t)
  {
    var u := PostBlind(t, seat, blind);
    assert u.seats == t.seats[seat := u.seats[seat]];
    SumMoneyUpdate(t.seats, seat, u.seats[seat]);
  }

  /** Because the bet is overwritten, the pot matches the bets only when the seat had bet nothing. */
  lemma PostBlindKeepsPotIsBets(t: Table, seat: nat, blind: int)
    requires seat < |t.seats| && PotIsBets(t) && t.seats[seat].bet == 0
    ensures PotIsBets(PostBlind(t, seat, blind))
  {
    var u := PostBlind(t, seat, blind);
    assert u.seats == t.seats[seat := u.seats[seat]];
    SumBetsUpdate(t.seats, seat, u.seats[seat]);
  }

  /** A blind the stack cannot exceed takes the whole stack and puts the seat all in. */
  lemma PostBlindAllIn(t: Table, seat: nat, blind: int)
    requires seat < |t.seats|
    ensures var u := PostBlind(t, seat, blind);
      && (t.seats[seat].money <= blind ==>
            u.seats[seat].isAllIn && u.seats[seat].money == 0 && u.seats[seat].bet == t.seats[seat].money && u.pot == t.pot + t.seats[seat].money)
      && (t.seats[seat].money > blind ==>
            u.seats[seat].isAllIn == t.seats[seat].isAllIn
            && u.seats[seat].money == t.seats[seat].money - blind && u.seats[seat].bet == blind && u.pot == t.pot + blind)
  {
  }

  // ---------------------------------------------------------------------------
  // reset_game

  /** The number of seats without money (the eliminations counted by reset_game). */
  function CountBroke(seats: seq<PlayerState>): (n: nat)
    ensures n <= |seats|
  {
    if |seats| == 0 then 0 else CountBroke(seats[..|seats| - 1]) + (if seats[|seats| - 1].money > 0 then 0 else 1)
  }

  /** The number of inactive seats. */
  function CountInactive(seats: seq<PlayerState>): (n: nat)
    ensures n <= |seats|
  {
    if |seats| == 0 then 0 else CountInactive(seats[..|seats| - 1]) + (if seats[|seats| - 1].isActive then 0 else 1)
  }

  /** The state reset_game gives a seat: no cards, no bet, active exactly when it has money. */
  function ResetSeat(p: PlayerState): (r: PlayerState)
    ensures r.hand == [] && r.bet == 0 && !r.isAllIn && r.money == p.money
    ensures r.isActive <==> r.money > 0
  {
    PlayerState([], 0, p.money, p.money > 0, false)
  }

  /** After a reset, the eliminated seats are exactly the inactive ones. */
  lemma {:induction false} ResetCountsInactive(before: seq<PlayerState>, after: seq<PlayerState>)
    requires |after| == |before| && forall i :: 0 <= i < |before| ==> after[i] == ResetSeat(before[i])
    ensures CountInactive(after) == CountBroke(before)
    ensures SumMoney(after) == SumMoney(before) && SumBets(after) == 0
  {
    if |before| > 0 {
      var last := |before| - 1;
      ResetCountsInactive(before[..last], after[..last]);
    }
  }
}
