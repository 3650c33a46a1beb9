/**
 * What the room engine promises, stated over `Step`: admission to the lobby, the dealing of
 * the first hands, ending a turn, playing a card and the settle order that follows it,
 * finality of the finished states, events a state does not list, and conservation of the
 * cards between the draw pile, the hands and the piles.
 */
module GameProperties {
  import opened Wrappers
  import opened Game

  // ---------------------------------------------------------------------------
  // The lobby

  /**
   * PLAYER_JOIN in a lobby that is not full seats exactly one new player, last, with an empty
   * hand; the earlier players and the rest of the context are untouched, and the lobby phase
   * follows the new head count.
   */
  lemma JoinAppendsPlayer(s: GameState, name: string)
    requires Inv(s)
    requires s.phase == LobbyNotReady || s.phase == LobbyReady
    ensures var r, n := Step(s, EventPlayerJoin(name)), |s.ctx.players| + 1;
      r.ctx.players == s.ctx.players + [Player(name, [], false)] &&
      r.ctx.(players := s.ctx.players) == s.ctx &&
      (r.phase == LobbyFull <==> n >= MaxAllowedPlayers) &&
      (r.phase == LobbyReady <==> MinAllowedPlayers <= n < MaxAllowedPlayers) &&
      (r.phase == LobbyNotReady <==> n < MinAllowedPlayers)
  {
  }

  /** A full lobby has exactly the maximum number of players and lists no PLAYER_JOIN. */
  lemma FullLobbyRefusesJoin(s: GameState, name: string)
    requires Inv(s) && s.phase == LobbyFull
    ensures |s.ctx.players| == MaxAllowedPlayers
    ensures Step(s, EventPlayerJoin(name)) == s
  {
  }

  // ---------------------------------------------------------------------------
  // Dealing the first hands

  /** The six cards the player in seat `i` is dealt from the ascending pile. */
  function InitialHand(i: nat): (r: seq<int>)
    ensures |r| == MaxHandSize
    ensures forall k :: 0 <= k < |r| ==> r[k] == MaxHandSize * i + 1 + k
  {
    Range(MaxHandSize * i + 1, MaxHandSize * i + MaxHandSize + 1)
  }

  /** After `k` passes through `next_player` from a fresh lobby. */
  ghost predicate Dealing(ctx: Context, k: nat) {
    k < |ctx.players| <= MaxAllowedPlayers && ctx.activePlayer == k &&
    ctx.drawPile == Range(MaxHandSize * k + 1, DeckSize + 1) &&
    forall i :: 0 <= i < |ctx.players| ==>
      ctx.players[i].hand == (if i < k then InitialHand(i) else []) &&
      ctx.players[i].drawnInitialHand == (i < k)
  }

  /** One pass through `next_player` while dealing: seat k takes the next six cards. */
  lemma DealOne(ctx: Context, k: nat)
    requires Dealing(ctx, k)
    ensures var next, n := DrawAndAdvance(ctx), |ctx.players|;
      |next.players| == n && next.activePlayer == (k + 1) % n &&
      next.cardsPlayed == ctx.cardsPlayed && next.piles == ctx.piles &&
      next.drawPile == Range(MaxHandSize * (k + 1) + 1, DeckSize + 1) &&
      forall i :: 0 <= i < n ==>
        next.players[i].name == ctx.players[i].name &&
        next.players[i].hand == (if i < k + 1 then InitialHand(i) else []) &&
        next.players[i].drawnInitialHand == (i < k + 1)
  {
    var drawn := DrawCards(ctx);
    assert ctx.drawPile[..MaxHandSize] == InitialHand(k);
    assert drawn.players[k].hand == InitialHand(k);
    assert drawn.drawPile == Range(MaxHandSize * (k + 1) + 1, DeckSize + 1);
  }

  /**
   * How dealing from `ctx` ends: `play_required` with the first seat active, count and piles
   * kept, seat i holding InitialHand(i) and marked as drawn, and the pile starting at 6n+1.
   */
  ghost predicate DealtFrom(ctx: Context, r: GameState) {
    var n := |ctx.players|;
    n <= MaxAllowedPlayers &&
    r.phase == PlayRequired && r.ctx.activePlayer == 0 &&
    r.ctx.cardsPlayed == ctx.cardsPlayed && r.ctx.piles == ctx.piles &&
    |r.ctx.players| == n &&
    r.ctx.drawPile == Range(MaxHandSize * n + 1, DeckSize + 1) &&
    forall i :: 0 <= i < n ==> r.ctx.players[i] == Player(ctx.players[i].name, InitialHand(i), true)
  }

  /** The last pass deals the last seat and settles. */
  lemma DealLast(ctx: Context, k: nat)
    requires Dealing(ctx, k) && k + 1 == |ctx.players|
    ensures DealtFrom(ctx, EnterNextPlayer(ctx))
  {
    var next := DrawAndAdvance(ctx);
    DealOne(ctx, k);
    assert AllDrawn(next);
    assert EnterNextPlayer(ctx) == GameState(PlayRequired, next);
  }

  /** How dealing ends depends on the starting context only through names, count and piles. */
  lemma DealtFromSameStart(c1: Context, c2: Context, r: GameState)
    requires |c1.players| == |c2.players|
    requires forall i :: 0 <= i < |c1.players| ==> c1.players[i].name == c2.players[i].name
    requires c1.cardsPlayed == c2.cardsPlayed && c1.piles == c2.piles
    requires DealtFrom(c1, r)
    ensures DealtFrom(c2, r)
  {
  }

  /** An earlier pass hands on to the passes after it: what they deal is what `ctx` deals. */
  lemma DealOn(ctx: Context)
    requires DrawnPrefix(ctx) && ctx.activePlayer + 1 < |ctx.players|
    requires DealtFrom(DrawAndAdvance(ctx), EnterNextPlayer(DrawAndAdvance(ctx)))
    ensures DealtFrom(ctx, EnterNextPlayer(ctx))
  {
    var drawn, next := DrawCards(ctx), DrawAndAdvance(ctx);
    var a := ctx.activePlayer;
    assert next.players == drawn.players && next.players[a + 1] == ctx.players[a + 1];
    assert !next.players[a + 1].drawnInitialHand;
    assert EnterNextPlayer(ctx) == EnterNextPlayer(next);
    DealtFromSameStart(next, ctx, EnterNextPlayer(next));
  }

  lemma {:induction false} DealFrom(ctx: Context, k: nat)
    requires Dealing(ctx, k)
    ensures DealtFrom(ctx, EnterNextPlayer(ctx))
    decreases |ctx.players| - k
  {
    if k + 1 < |ctx.players| {
      DealOne(ctx, k);
      assert Dealing(DrawAndAdvance(ctx), k + 1);
      DealFrom(DrawAndAdvance(ctx), k + 1);
      DealOn(ctx);
    } else {
      DealLast(ctx, k);
    }
  }

  /**
   * START_GAME in a ready or full lobby of n players passes through `next_player` n times:
   * the game settles in `play_required` with the first seat active again, every player has
   * drawn, seat i holds the cards 6i+1..6i+6 of the ascending pile, and the pile starts at 6n+1.
   */
  lemma StartGameDeals(s: GameState, name: string)
    requires Inv(s)
    requires s.phase == LobbyReady || s.phase == LobbyFull
    ensures var r, n := Step(s, EventStartGame(name)), |s.ctx.players|;
      r.phase == PlayRequired && r.ctx.activePlayer == 0 &&
      r.ctx.cardsPlayed == 0 && r.ctx.piles == EmptyPiles &&
      |r.ctx.players| == n && AllDrawn(r.ctx) &&
      r.ctx.drawPile == Range(MaxHandSize * n + 1, DeckSize + 1) &&
      forall i :: 0 <= i < n ==> r.ctx.players[i] == Player(s.ctx.players[i].name, InitialHand(i), true)
  {
    assert Dealing(s.ctx, 0);
    DealFrom(s.ctx, 0);
  }

  // ---------------------------------------------------------------------------
  // Ending a turn

  /**
   * END_TURN in `play_optional` refills the hand of the player whose turn it was from the top
   * of the draw pile, passes the turn to the next seat (wrapping around) and settles in
   * `play_required`. The play counter is not reset.
   */
  lemma EndTurnRefillsAndAdvances(s: GameState, name: string)
    requires Inv(s) && s.phase == PlayOptional
    ensures var r, a := Step(s, EventEndTurn(name)), s.ctx.activePlayer;
      var h := s.ctx.players[a].hand;
      var k := Min(MaxHandSize - |h|, |s.ctx.drawPile|);
      r.phase == PlayRequired &&
      r.ctx.activePlayer == (a + 1) % |s.ctx.players| && r.ctx.activePlayer < |r.ctx.players| &&
      |r.ctx.players| == |s.ctx.players| &&
      r.ctx.players[a] == s.ctx.players[a].(hand := h + s.ctx.drawPile[..k]) &&
      |r.ctx.players[a].hand| == Min(MaxHandSize, |h| + |s.ctx.drawPile|) &&
      r.ctx.drawPile == s.ctx.drawPile[k..] &&
      (forall i :: 0 <= i < |s.ctx.players| && i != a ==> r.ctx.players[i] == s.ctx.players[i]) &&
      r.ctx.cardsPlayed == s.ctx.cardsPlayed && r.ctx.piles == s.ctx.piles
  {
    var next := DrawAndAdvance(s.ctx);
    assert AllDrawn(next);
  }

  // ---------------------------------------------------------------------------
  // Playing a card

  /**
   * PLAY_CARD in `play_required` or `play_optional` counts one more play, puts the card on top
   * of the named pile and takes it out of the hand of every player with the sender's name;
   * the other piles, the other players, the draw pile and the turn are untouched. Neither the
   * turn nor the ownership of the card is checked.
   */
  lemma PlayCardEffect(s: GameState, name: string, card: int, pile: Pile)
    requires Inv(s) && (s.phase == PlayRequired || s.phase == PlayOptional)
    ensures var r := Step(s, EventPlayCard(name, card, pile));
      r.ctx.cardsPlayed == s.ctx.cardsPlayed + 1 &&
      r.ctx.piles.Get(pile) == s.ctx.piles.Get(pile) + [card] &&
      (forall q :: q != pile ==> r.ctx.piles.Get(q) == s.ctx.piles.Get(q)) &&
      r.ctx.drawPile == s.ctx.drawPile && r.ctx.activePlayer == s.ctx.activePlayer &&
      |r.ctx.players| == |s.ctx.players| &&
      (forall i :: 0 <= i < |s.ctx.players| && s.ctx.players[i].name != name ==>
         r.ctx.players[i] == s.ctx.players[i]) &&
      (forall i :: 0 <= i < |s.ctx.players| && s.ctx.players[i].name == name ==>
         r.ctx.players[i] == s.ctx.players[i].(hand := Without(s.ctx.players[i].hand, card)) &&
         card !in r.ctx.players[i].hand)
  {
  }

  /**
   * The settle order after a play: the game is won exactly when the draw pile and every hand
   * are empty; otherwise play becomes optional exactly when enough cards have been played
   * (two while the draw pile has cards, else one), and stays required otherwise.
   */
  lemma SettleAfterPlay(s: GameState, name: string, card: int, pile: Pile)
    requires Inv(s) && (s.phase == PlayRequired || s.phase == PlayOptional)
    ensures var r := Step(s, EventPlayCard(name, card, pile));
      (r.phase == FinishedWin <==>
        r.ctx.drawPile == [] && forall i :: 0 <= i < |r.ctx.players| ==> r.ctx.players[i].hand == []) &&
      (r.phase == PlayOptional <==>
        !NoCardsLeft(r.ctx) && r.ctx.cardsPlayed >= (if r.ctx.drawPile != [] then 2 else 1)) &&
      (r.phase == PlayRequired <==>
        !NoCardsLeft(r.ctx) && r.ctx.cardsPlayed < (if r.ctx.drawPile != [] then 2 else 1))
  {
  }

  /** `cardsPlayed` only ever grows: by one for each accepted play, and is otherwise untouched. */
  lemma CardsPlayedOnlyCountsPlays(s: GameState, e: Event)
    requires Inv(s)
    ensures Step(s, e).ctx.cardsPlayed ==
      s.ctx.cardsPlayed +
      (if e.EventPlayCard? && (s.phase == PlayRequired || s.phase == PlayOptional) then 1 else 0)
  {
  }

  // ---------------------------------------------------------------------------
  // Final states and unlisted events

  /** No event leaves a finished game. */
  lemma FinishedIsFinal(s: GameState, e: Event)
    requires Inv(s) && (s.phase == FinishedWin || s.phase == FinishedLoss)
    ensures Step(s, e) == s
  {
  }

  /** No transition enters `finished_loss`: no guard in the table targets it. */
  lemma NoLoss(s: GameState, e: Event)
    requires Inv(s) && s.phase != FinishedLoss
    ensures Step(s, e).phase != FinishedLoss
  {
  }

  /** An event the current state does not list changes neither the phase nor the context. */
  lemma UnlistedEventsIgnored(s: GameState, e: Event)
    requires Inv(s)
    requires
      || e.EventEndGame?
      || ((s.phase == LobbyNotReady || s.phase == LobbyReady || s.phase == LobbyFull) &&
          (e.EventPlayCard? || e.EventEndTurn?))
      || (s.phase == LobbyNotReady && e.EventStartGame?)
      || (s.phase == LobbyFull && e.EventPlayerJoin?)
      || ((s.phase == PlayRequired || s.phase == PlayOptional) &&
          (e.EventPlayerJoin? || e.EventStartGame?))
      || (s.phase == PlayRequired && e.EventEndTurn?)
    ensures Step(s, e) == s
  {
  }

  // ---------------------------------------------------------------------------
  // Conservation of the cards

  /** The cards held in all hands together. */
  ghost function HandCards(ps: seq<Player>): multiset<int> {
    if ps == [] then multiset{} else multiset(ps[0].hand) + HandCards(ps[1..])
  }

  ghost function PileCards(piles: Piles): multiset<int> {
    multiset(piles.Get(A)) + multiset(piles.Get(B)) + multiset(piles.Get(C)) + multiset(piles.Get(D))
  }

  /** Every card of the game, wherever it is: draw pile, hands and piles. */
  ghost function AllCards(ctx: Context): multiset<int> {
    multiset(ctx.drawPile) + HandCards(ctx.players) + PileCards(ctx.piles)
  }

  /** Each card 1..99 is in exactly one place: the draw pile, one hand, or one pile. */
  ghost predicate CardsPartitioned(ctx: Context) {
    AllCards(ctx) == multiset(InitialDrawPile())
  }

  lemma {:induction false} RangeCounts(lo: int, hi: int, x: int)
    requires lo <= hi
    ensures multiset(Range(lo, hi))[x] == if lo <= x < hi then 1 else 0
    decreases hi - lo
  {
    if lo < hi {
      assert Range(lo, hi) == [lo] + Range(lo + 1, hi);
      RangeCounts(lo + 1, hi, x);
    }
  }

  lemma {:induction false} EmptyHandsHoldNothing(ps: seq<Player>)
    requires forall i :: 0 <= i < |ps| ==> ps[i].hand == []
    ensures HandCards(ps) == multiset{}
  {
    if ps != [] {
      EmptyHandsHoldNothing(ps[1..]);
    }
  }

  /** Every lobby state has all cards in the draw pile, each once. */
  lemma LobbyCardsPartitioned(s: GameState)
    requires Inv(s)
    requires s.phase == LobbyNotReady || s.phase == LobbyReady || s.phase == LobbyFull
    ensures CardsPartitioned(s.ctx)
  {
    EmptyHandsHoldNothing(s.ctx.players);
  }

  /** Multisets are equal when every element occurs equally often in both. */
  lemma SameCount(m1: multiset<int>, m2: multiset<int>)
    requires forall x :: m1[x] == m2[x]
    ensures m1 == m2
  {
    forall x ensures m1[x] <= m2[x] && m2[x] <= m1[x] {
    }
    assert m1 <= m2 && m2 <= m1;
  }

  lemma {:induction false} HandCardsUpdate(ps: seq<Player>, i: nat, p: Player)
    requires i < |ps|
    ensures HandCards(ps[i := p]) + multiset(ps[i].hand) == HandCards(ps) + multiset(p.hand)
  {
    if i == 0 {
      assert ps[i := p][1..] == ps[1..];
    } else {
      var q := ps[i := p];
      assert q[0] == ps[0] && q[1..] == ps[1..][i - 1 := p];
      HandCardsUpdate(ps[1..], i - 1, p);
      assert ps[1..][i - 1] == ps[i];
      assert HandCards(q) == multiset(ps[0].hand) + HandCards(ps[1..][i - 1 := p]);
      assert HandCards(ps) == multiset(ps[0].hand) + HandCards(ps[1..]);
      var ih1, ih2 := HandCards(ps[1..][i - 1 := p]) + multiset(ps[i].hand), HandCards(ps[1..]) + multiset(p.hand);
      assert ih1 == ih2;
      forall x ensures (HandCards(q) + multiset(ps[i].hand))[x] == (HandCards(ps) + multiset(p.hand))[x] {
        assert ih1[x] == ih2[x];
      }
      SameCount(HandCards(q) + multiset(ps[i].hand), HandCards(ps) + multiset(p.hand));
    }
  }

  lemma {:induction false} HeldCounted(ps: seq<Player>, j: nat, x: int)
    requires j < |ps|
    ensures HandCards(ps)[x] >= multiset(ps[j].hand)[x]
  {
    if j > 0 {
      HeldCounted(ps[1..], j - 1, x);
    }
  }

  lemma {:induction false} TwoHeldCounted(ps: seq<Player>, i: nat, j: nat, x: int)
    requires i < |ps| && j < |ps| && i != j
    ensures HandCards(ps)[x] >= multiset(ps[i].hand)[x] + multiset(ps[j].hand)[x]
  {
    if i == 0 {
      HeldCounted(ps[1..], j - 1, x);
    } else if j == 0 {
      HeldCounted(ps[1..], i - 1, x);
    } else {
      TwoHeldCounted(ps[1..], i - 1, j - 1, x);
    }
  }

  lemma {:induction false} DiscardCounted(ps: seq<Player>, name: string, card: int)
    requires forall i :: 0 <= i < |ps| && card in ps[i].hand ==> ps[i].name == name
    ensures HandCards(DiscardFromNamed(ps, name, card)) == HandCards(ps)[card := 0]
  {
    if ps != [] {
      var r := DiscardFromNamed(ps, name, card);
      assert r[1..] == DiscardFromNamed(ps[1..], name, card);
      DiscardCounted(ps[1..], name, card);
      assert multiset(r[0].hand) == multiset(ps[0].hand)[card := 0];
    }
  }

  /** Drawing moves cards from the draw pile into a hand and loses none. */
  lemma DrawCardsConservesCards(ctx: Context)
    requires ctx.activePlayer < |ctx.players|
    ensures AllCards(DrawCards(ctx)) == AllCards(ctx)
  {
    var r, a := DrawCards(ctx), ctx.activePlayer;
    var before, after := ctx.players[a], r.players[a];
    assert r.players == ctx.players[a := after];
    HandCardsUpdate(ctx.players, a, after);
    var drawn := after.hand[|before.hand|..];
    assert after.hand == before.hand + drawn;
    assert multiset(after.hand) == multiset(before.hand) + multiset(drawn);
    assert ctx.drawPile == drawn + r.drawPile;
    assert multiset(ctx.drawPile) == multiset(drawn) + multiset(r.drawPile);
    var upd, was := HandCards(r.players) + multiset(before.hand), HandCards(ctx.players) + multiset(after.hand);
    assert upd == was;
    forall x ensures HandCards(r.players)[x] == (HandCards(ctx.players) + multiset(drawn))[x] {
      assert upd[x] == was[x];
    }
    SameCount(HandCards(r.players), HandCards(ctx.players) + multiset(drawn));
    assert r.piles == ctx.piles;
  }

  lemma {:induction false} NextPlayerConservesCards(ctx: Context)
    requires ctx.activePlayer < |ctx.players|
    requires AllDrawn(ctx) || DrawnPrefix(ctx)
    ensures AllCards(EnterNextPlayer(ctx).ctx) == AllCards(ctx)
    decreases Undrawn(ctx.players)
  {
    var next := DrawAndAdvance(ctx);
    DrawCardsConservesCards(ctx);
    NextPlayerRound(ctx);
    if !AllDrawn(next) {
      NextPlayerConservesCards(next);
    }
  }

  /** A card counted at most once in all hands is held by at most one player. */
  lemma OnlyHolder(ps: seq<Player>, j: nat, card: int)
    requires j < |ps| && card in ps[j].hand && HandCards(ps)[card] <= 1
    ensures forall i :: 0 <= i < |ps| && card in ps[i].hand ==> i == j
  {
    forall i | 0 <= i < |ps| && i != j
      ensures card !in ps[i].hand
    {
      TwoHeldCounted(ps, i, j, card);
    }
  }

  /** Putting a card on a pile adds exactly that card to the piles. */
  lemma AppendAddsToPiles(piles: Piles, pile: Pile, card: int)
    ensures PileCards(piles.Append(pile, card)) == PileCards(piles) + multiset{card}
  {
    match pile
    case A =>
    case B =>
    case C =>
    case D =>
  }

  /**
   * Playing a card that a player with the sender's name holds, when that card exists only
   * once, moves it from the hand to the pile and loses or creates no card.
   */
  lemma PlayCardConservesCards(ctx: Context, name: string, card: int, pile: Pile, j: nat)
    requires j < |ctx.players| && ctx.players[j].name == name && card in ctx.players[j].hand
    requires AllCards(ctx)[card] == 1
    ensures AllCards(PlayCard(ctx, name, card, pile)) == AllCards(ctx)
  {
    var ps, r := ctx.players, PlayCard(ctx, name, card, pile);
    var held := HandCards(ps);
    HeldCounted(ps, j, card);
    assert held[card] == 1;
    OnlyHolder(ps, j, card);
    DiscardCounted(ps, name, card);
    var left := HandCards(r.players);
    assert left == held[card := 0];
    forall x ensures (left + multiset{card})[x] == held[x] {
    }
    SameCount(left + multiset{card}, held);
    AppendAddsToPiles(ctx.piles, pile, card);
    assert PileCards(r.piles) == PileCards(ctx.piles) + multiset{card};
  }

  lemma PlayConservesCards(ctx: Context, name: string, card: int, pile: Pile, j: nat)
    requires CardsPartitioned(ctx)
    requires j < |ctx.players| && ctx.players[j].name == name && card in ctx.players[j].hand
    ensures CardsPartitioned(PlayCard(IncCardsPlayed(ctx), name, card, pile))
  {
    var next := IncCardsPlayed(ctx);
    assert AllCards(next) == AllCards(ctx);
    HeldCounted(next.players, j, card);
    RangeCounts(1, DeckSize + 1, card);
    PlayCardConservesCards(next, name, card, pile, j);
  }

  /**
   * Every transition keeps each card in exactly one place, as long as a play names a card
   * that some player with the sender's name holds (which the engine does not check).
   */
  lemma StepConservesCards(s: GameState, e: Event)
    requires Inv(s) && CardsPartitioned(s.ctx)
    requires e.EventPlayCard? && (s.phase == PlayRequired || s.phase == PlayOptional) ==>
      exists j :: 0 <= j < |s.ctx.players| && s.ctx.players[j].name == e.name &&
                  e.card in s.ctx.players[j].hand
    ensures CardsPartitioned(Step(s, e).ctx)
  {
    var r := Step(s, e);
    if e.EventPlayerJoin? && (s.phase == LobbyNotReady || s.phase == LobbyReady) {
      LobbyCardsPartitioned(r);
    } else if (e.EventStartGame? && (s.phase == LobbyReady || s.phase == LobbyFull)) ||
              (e.EventEndTurn? && s.phase == PlayOptional) {
      assert r == EnterNextPlayer(s.ctx);
      NextPlayerConservesCards(s.ctx);
    } else if e.EventPlayCard? && (s.phase == PlayRequired || s.phase == PlayOptional) {
      var j :| 0 <= j < |s.ctx.players| && s.ctx.players[j].name == e.name &&
               e.card in s.ctx.players[j].hand;
      PlayConservesCards(s.ctx, e.name, e.card, e.pile, j);
      assert r.ctx == PlayCard(IncCardsPlayed(s.ctx), e.name, e.card, e.pile);
    } else {
      assert r == s;
    }
  }
}
