/**
 * The room engine of the card game: the game context, the five `assign` actions of the
 * state machine, the guards of its eventless transitions, the transition function over
 * resting phases (lobby, dealing, play, finished), and the per-player view.
 *
 * The state machine library is replaced by `Step`, which applies an event's target state,
 * runs that state's entry actions and then follows the eventless transitions in their
 * listed guard order until a resting phase is reached.
 */
module Game {
  import opened Wrappers

  const MaxHandSize: nat := 6
  const MinAllowedPlayers: nat := 2
  const MaxAllowedPlayers: nat := 10
  /** A new room's draw pile holds the cards 1..DeckSize, ascending (there is no shuffle). */
  const DeckSize: nat := 99

  datatype Pile = A | B | C | D

  /** The four piles cards are played onto, each the ordered history of its cards. */
  datatype Piles = Piles(a: seq<int>, b: seq<int>, c: seq<int>, d: seq<int>) {

    function Get(p: Pile): seq<int> {
      match p
      case A => a
      case B => b
      case C => c
      case D => d
    }

    /** The piles with `card` put on top of pile `p`. */
    function Append(p: Pile, card: int): (r: Piles)
      ensures r.Get(p) == Get(p) + [card]
      ensures forall q :: q != p ==> r.Get(q) == Get(q)
    {
      match p
      case A => this.(a := a + [card])
      case B => this.(b := b + [card])
      case C => this.(c := c + [card])
      case D => this.(d := d + [card])
    }
  }

  const EmptyPiles: Piles := Piles([], [], [], [])

  datatype Player = Player(name: string, hand: seq<int>, drawnInitialHand: bool)

  /** The machine's extended state. */
  datatype Context = Context(
    activePlayer: nat,
    cardsPlayed: nat,
    drawPile: seq<int>,
    players: seq<Player>,
    piles: Piles)

  /** Every event carries the name of the player who sent it. */
  datatype Event =
    | EventPlayerJoin(name: string)
    | EventStartGame(name: string)
    | EventPlayCard(name: string, card: int, pile: Pile)
    | EventEndTurn(name: string)
    | EventEndGame(name: string)

  /**
   * The machine's states. PlayerJoined, NextPlayer and CardPlayed are transient: they are
   * left through eventless transitions as soon as they are entered.
   */
  datatype Phase =
    | PlayerJoined
    | LobbyNotReady
    | LobbyReady
    | LobbyFull
    | FinishedLoss
    | FinishedWin
    | NextPlayer
    | CardPlayed
    | PlayRequired
    | PlayOptional

  /** A snapshot of the running machine: its current state and its context. */
  datatype GameState = GameState(phase: Phase, ctx: Context)

  function Min(x: int, y: int): int {
    if x <= y then x else y
  }

  /** The ascending cards lo..hi-1. */
  function Range(lo: int, hi: int): (r: seq<int>)
    requires lo <= hi
    ensures |r| == hi - lo
    ensures forall i :: 0 <= i < |r| ==> r[i] == lo + i
  {
    seq(hi - lo, i => lo + i)
  }

  function InitialDrawPile(): seq<int> {
    Range(1, DeckSize + 1)
  }

  /** The context a new room starts with. */
  function InitialContext(): Context {
    Context(0, 0, InitialDrawPile(), [], EmptyPiles)
  }

  // ---------------------------------------------------------------------------
  // Array helpers with JavaScript's semantics

  /** How `Array.prototype.slice` reads an index: negative counts from the end, clamped to 0..len. */
  function SliceIndex(k: int, len: nat): (r: nat)
    ensures r <= len
    ensures 0 <= k ==> r == Min(k, len)
    ensures k < 0 ==> r == (if len + k < 0 then 0 else len + k)
  {
    if k < 0 then (if len + k < 0 then 0 else len + k)
    else if k > len then len
    else k
  }

  /** `s.slice(start, end)`. */
  function Slice<T>(s: seq<T>, start: int, end: int): seq<T> {
    var i, j := SliceIndex(start, |s|), SliceIndex(end, |s|);
    if i < j then s[i..j] else []
  }

  /** `hand.filter((c) => c !== card)`: the hand without any copy of `card`, in its order. */
  function Without(hand: seq<int>, card: int): (r: seq<int>)
    ensures multiset(r) == multiset(hand)[card := 0]
    ensures forall x :: x in r <==> x in hand && x != card
    ensures |r| <= |hand|
    ensures card !in hand ==> r == hand
  {
    if hand == [] then []
    else
      assert hand == [hand[0]] + hand[1..];
      (if hand[0] == card then [] else [hand[0]]) + Without(hand[1..], card)
  }

  /**
   * Filtering a hand is filtering its parts and joining them in order. With the
   * contract of `Without` this fixes the result card by card: the kept cards stay in
   * the hand's order.
   */
  lemma {:induction false} WithoutConcat(a: seq<int>, b: seq<int>, card: int)
    ensures Without(a + b, card) == Without(a, card) + Without(b, card)
  {
    if a == [] {
      assert a + b == b;
    } else {
      var ab := a + b;
      assert ab[0] == a[0] && ab[1..] == a[1..] + b;
      WithoutFirst(ab, card);
      WithoutFirst(a, card);
      WithoutConcat(a[1..], b, card);
      AppendAssoc(if a[0] == card then [] else [a[0]], Without(a[1..], card), Without(b, card));
    }
  }

  /** Joining three hands does not depend on the grouping. */
  lemma AppendAssoc(f: seq<int>, x: seq<int>, y: seq<int>)
    ensures f + (x + y) == (f + x) + y
  {
  }

  /** One step of the filter: the first card is kept unless it is `card`. */
  lemma WithoutFirst(hand: seq<int>, card: int)
    requires hand != []
    ensures Without(hand, card) == (if hand[0] == card then [] else [hand[0]]) + Without(hand[1..], card)
  {
  }

  // ---------------------------------------------------------------------------
  // The assign actions

  /** `incCardsPlayed`: one more card has been played; nothing else changes. */
  function IncCardsPlayed(ctx: Context): (r: Context)
    ensures r.cardsPlayed == ctx.cardsPlayed + 1
    ensures r.(cardsPlayed := ctx.cardsPlayed) == ctx
  {
    ctx.(cardsPlayed := ctx.cardsPlayed + 1)
  }

  /** The `players` part of `playCard`: every player called `name` loses `card` from the hand. */
  function DiscardFromNamed(ps: seq<Player>, name: string, card: int): (r: seq<Player>)
    ensures |r| == |ps|
    ensures forall i :: 0 <= i < |ps| ==>
      r[i].name == ps[i].name && r[i].drawnInitialHand == ps[i].drawnInitialHand
    ensures forall i :: 0 <= i < |ps| && ps[i].name != name ==> r[i] == ps[i]
    ensures forall i :: 0 <= i < |ps| && ps[i].name == name ==>
      r[i].hand == Without(ps[i].hand, card) && card !in r[i].hand
  {
    if ps == [] then []
    else
      var p := ps[0];
      var q := if p.name != name then p else p.(hand := Without(p.hand, card));
      var rest := DiscardFromNamed(ps[1..], name, card);
      assert forall i :: 1 <= i < |ps| ==> ([q] + rest)[i] == rest[i - 1] && ps[1..][i - 1] == ps[i];
      [q] + rest
  }

  /** `playCard`: put `card` on `pile` and take it out of the hand of every player called `name`. */
  function PlayCard(ctx: Context, name: string, card: int, pile: Pile): (r: Context)
    ensures r.piles.Get(pile) == ctx.piles.Get(pile) + [card]
    ensures forall q :: q != pile ==> r.piles.Get(q) == ctx.piles.Get(q)
    ensures r.drawPile == ctx.drawPile
    ensures r.activePlayer == ctx.activePlayer && r.cardsPlayed == ctx.cardsPlayed
    ensures r.players == DiscardFromNamed(ctx.players, name, card)
  {
    ctx.(piles := ctx.piles.Append(pile, card),
         players := DiscardFromNamed(ctx.players, name, card))
  }

  /**
   * `drawCards`: the active player takes cards from the top of the draw pile until the hand
   * holds MaxHandSize cards or the pile is empty, and is marked as having drawn.
   */
  function DrawCards(ctx: Context): (r: Context)
    requires ctx.activePlayer < |ctx.players|
    ensures |r.players| == |ctx.players|
    ensures r.activePlayer == ctx.activePlayer && r.cardsPlayed == ctx.cardsPlayed
    ensures r.piles == ctx.piles
    ensures forall i :: 0 <= i < |ctx.players| && i != ctx.activePlayer ==>
      r.players[i] == ctx.players[i]
    ensures var before, after := ctx.players[ctx.activePlayer], r.players[ctx.activePlayer];
      after.name == before.name && after.drawnInitialHand &&
      |before.hand| <= |after.hand| && after.hand[..|before.hand|] == before.hand &&
      after.hand[|before.hand|..] + r.drawPile == ctx.drawPile
    ensures var before, after := ctx.players[ctx.activePlayer], r.players[ctx.activePlayer];
      |before.hand| <= MaxHandSize ==>
        var k := Min(MaxHandSize - |before.hand|, |ctx.drawPile|);
        after.hand == before.hand + ctx.drawPile[..k] && r.drawPile == ctx.drawPile[k..]
  {
    var player := ctx.players[ctx.activePlayer];
    var cardsNeeded := MaxHandSize - |player.hand|;
    var drawnCards := Slice(ctx.drawPile, 0, cardsNeeded);
    var newDrawPile := Slice(ctx.drawPile, cardsNeeded, |ctx.drawPile|);
    assert drawnCards + newDrawPile == ctx.drawPile;
    var drawn := player.(hand := player.hand + drawnCards, drawnInitialHand := true);
    assert drawn.hand[|player.hand|..] == drawnCards;
    ctx.(drawPile := newDrawPile, players := ctx.players[ctx.activePlayer := drawn])
  }

  /** `incPlayer`: the turn passes to the next seat, wrapping around. */
  function IncPlayer(ctx: Context): (r: Context)
    requires |ctx.players| > 0
    ensures r.activePlayer < |r.players|
    ensures ctx.activePlayer + 1 < |ctx.players| ==> r.activePlayer == ctx.activePlayer + 1
    ensures ctx.activePlayer + 1 == |ctx.players| ==> r.activePlayer == 0
    ensures r.(activePlayer := ctx.activePlayer) == ctx
  {
    ctx.(activePlayer := (ctx.activePlayer + 1) % |ctx.players|)
  }

  /** `addPlayer`: a new player with an empty hand takes the last seat. */
  function AddPlayer(ctx: Context, name: string): (r: Context)
    ensures |r.players| == |ctx.players| + 1
    ensures r.players[..|ctx.players|] == ctx.players
    ensures r.players[|ctx.players|] == Player(name, [], false)
    ensures r.(players := ctx.players) == ctx
  {
    ctx.(players := ctx.players + [Player(name, [], false)])
  }

  // ---------------------------------------------------------------------------
  // Guards of the eventless transitions

  /** The eventless transitions of `player_joined`, tried in their listed order. */
  function JoinedPhase(count: nat): (p: Phase)
    ensures p == LobbyFull <==> count >= MaxAllowedPlayers
    ensures p == LobbyReady <==> MinAllowedPlayers <= count < MaxAllowedPlayers
    ensures p == LobbyNotReady <==> count < MinAllowedPlayers
  {
    if count >= MaxAllowedPlayers then LobbyFull
    else if count >= MinAllowedPlayers then LobbyReady
    else LobbyNotReady
  }

  predicate AllDrawn(ctx: Context) {
    forall i :: 0 <= i < |ctx.players| ==> ctx.players[i].drawnInitialHand
  }

  /** The players who have not yet drawn an initial hand. */
  function Undrawn(ps: seq<Player>): (r: nat)
    ensures r <= |ps|
    ensures r == 0 <==> forall i :: 0 <= i < |ps| ==> ps[i].drawnInitialHand
  {
    if ps == [] then 0
    else (if ps[0].drawnInitialHand then 0 else 1) + Undrawn(ps[1..])
  }

  /** While the first hands are dealt: exactly the seats before the active one have drawn. */
  predicate DrawnPrefix(ctx: Context) {
    ctx.activePlayer < |ctx.players| &&
    forall i :: 0 <= i < |ctx.players| ==> (ctx.players[i].drawnInitialHand <==> i < ctx.activePlayer)
  }

  lemma {:induction false} UndrawnOfPrefix(ps: seq<Player>, k: nat)
    requires k <= |ps|
    requires forall i :: 0 <= i < |ps| ==> (ps[i].drawnInitialHand <==> i < k)
    ensures Undrawn(ps) == |ps| - k
  {
    if ps != [] {
      UndrawnOfPrefix(ps[1..], if k == 0 then 0 else k - 1);
    }
  }

  /** One pass through the entry actions of `next_player`: draw, then advance the turn. */
  function DrawAndAdvance(ctx: Context): (r: Context)
    requires ctx.activePlayer < |ctx.players|
  {
    IncPlayer(DrawCards(ctx))
  }

  /**
   * One pass through `next_player` keeps the dealing invariant: if some player still has to
   * draw, exactly the seats before the new active one have drawn, and one fewer is waiting.
   */
  lemma NextPlayerRound(ctx: Context)
    requires ctx.activePlayer < |ctx.players|
    requires AllDrawn(ctx) || DrawnPrefix(ctx)
    ensures var next := DrawAndAdvance(ctx);
      !AllDrawn(next) ==> DrawnPrefix(next) && Undrawn(next.players) < Undrawn(ctx.players)
  {
    var next := DrawAndAdvance(ctx);
    var a := ctx.activePlayer;
    if DrawnPrefix(ctx) && a + 1 < |ctx.players| {
      assert next.activePlayer == a + 1;
      UndrawnOfPrefix(ctx.players, a);
      UndrawnOfPrefix(next.players, a + 1);
    }
  }

  predicate HandsWithinLimit(ctx: Context) {
    forall i :: 0 <= i < |ctx.players| ==> |ctx.players[i].hand| <= MaxHandSize
  }

  /**
   * Entering `next_player`: run its entry actions and follow its eventless transitions,
   * re-entering it while some player has not drawn an initial hand, then settle in
   * `play_required`. It terminates because each pass deals to one more waiting player.
   */
  function EnterNextPlayer(ctx: Context): (r: GameState)
    requires ctx.activePlayer < |ctx.players|
    requires AllDrawn(ctx) || DrawnPrefix(ctx)
    ensures r.phase == PlayRequired && AllDrawn(r.ctx)
    ensures |r.ctx.players| == |ctx.players| && r.ctx.activePlayer < |r.ctx.players|
    ensures r.ctx.cardsPlayed == ctx.cardsPlayed && r.ctx.piles == ctx.piles
    ensures forall i :: 0 <= i < |ctx.players| ==> r.ctx.players[i].name == ctx.players[i].name
    ensures HandsWithinLimit(ctx) ==> HandsWithinLimit(r.ctx)
    decreases Undrawn(ctx.players)
  {
    var next := DrawAndAdvance(ctx);
    NextPlayerRound(ctx);
    if !AllDrawn(next) then EnterNextPlayer(next)
    else GameState(PlayRequired, next)
  }

  /** `players.reduce((p, c) => p + c.hand.length, 0)`: the cards held by all players. */
  function HandTotal(ps: seq<Player>): (r: nat)
    ensures r == 0 <==> forall i :: 0 <= i < |ps| ==> ps[i].hand == []
  {
    if ps == [] then 0 else |ps[0].hand| + HandTotal(ps[1..])
  }

  /** Every card is out of the draw pile and out of every hand. */
  predicate NoCardsLeft(ctx: Context) {
    ctx.drawPile == [] && forall i :: 0 <= i < |ctx.players| ==> ctx.players[i].hand == []
  }

  /** The number of plays a turn needs: two while cards remain to be drawn, else one. */
  function RequiredPlays(ctx: Context): nat {
    if |ctx.drawPile| > 0 then 2 else 1
  }

  /** The eventless transitions of `card_played`, tried in their listed order. */
  function CardPlayedPhase(ctx: Context): (p: Phase)
    ensures p == FinishedWin <==> NoCardsLeft(ctx)
    ensures p == PlayOptional <==> !NoCardsLeft(ctx) && ctx.cardsPlayed >= RequiredPlays(ctx)
    ensures p == PlayRequired <==> !NoCardsLeft(ctx) && ctx.cardsPlayed < RequiredPlays(ctx)
  {
    if |ctx.drawPile| + HandTotal(ctx.players) == 0 then FinishedWin
    else if ctx.cardsPlayed >= RequiredPlays(ctx) then PlayOptional
    else PlayRequired
  }

  // ---------------------------------------------------------------------------
  // The transition table

  /** A lobby nobody has started yet: no card has moved. */
  predicate FreshLobby(ctx: Context) {
    ctx.activePlayer == 0 && ctx.cardsPlayed == 0 &&
    ctx.drawPile == InitialDrawPile() && ctx.piles == EmptyPiles &&
    |ctx.players| <= MaxAllowedPlayers &&
    forall i :: 0 <= i < |ctx.players| ==>
      ctx.players[i].hand == [] && !ctx.players[i].drawnInitialHand
  }

  /** A started game: 2..10 players, a valid turn pointer, every hand dealt and within the limit. */
  predicate InPlay(ctx: Context) {
    MinAllowedPlayers <= |ctx.players| <= MaxAllowedPlayers &&
    ctx.activePlayer < |ctx.players| &&
    AllDrawn(ctx) && HandsWithinLimit(ctx)
  }

  /** What holds of every state the machine rests in. */
  predicate Inv(s: GameState) {
    match s.phase
    case LobbyNotReady | LobbyReady | LobbyFull =>
      FreshLobby(s.ctx) && s.phase == JoinedPhase(|s.ctx.players|)
    case PlayRequired | PlayOptional | FinishedWin | FinishedLoss => InPlay(s.ctx)
    case PlayerJoined | NextPlayer | CardPlayed => false
  }

  /** The state a new room starts in. */
  function InitialState(): (s: GameState)
    ensures Inv(s) && s.phase == LobbyNotReady && s.ctx.players == []
  {
    GameState(LobbyNotReady, InitialContext())
  }

  /** A join accepted by a lobby that is not full lands in the lobby its new count names. */
  lemma JoinKeepsInv(s: GameState, name: string)
    requires Inv(s) && (s.phase == LobbyNotReady || s.phase == LobbyReady)
    ensures Inv(GameState(JoinedPhase(|s.ctx.players| + 1), AddPlayer(s.ctx, name)))
  {
    var ctx := AddPlayer(s.ctx, name);
    assert |ctx.players| == |s.ctx.players| + 1 <= MaxAllowedPlayers;
    assert forall i :: 0 <= i < |ctx.players| ==>
      ctx.players[i].hand == [] && !ctx.players[i].drawnInitialHand;
  }

  /** A play keeps the game started: turn, head count, drawn flags and hand limit survive. */
  lemma PlayKeepsInPlay(ctx: Context, name: string, card: int, pile: Pile)
    requires InPlay(ctx)
    ensures InPlay(PlayCard(IncCardsPlayed(ctx), name, card, pile))
  {
    var r := PlayCard(IncCardsPlayed(ctx), name, card, pile);
    assert |r.players| == |ctx.players|;
    assert forall i :: 0 <= i < |r.players| ==>
      r.players[i].drawnInitialHand && |r.players[i].hand| <= |ctx.players[i].hand|;
  }

  /**
   * One event. The `on` map of each resting state, read event by event: if the current
   * state lists the event, enter its target, run the target's entry actions and settle
   * through the eventless transitions; otherwise nothing changes.
   */
  function Step(s: GameState, e: Event): (r: GameState)
    requires Inv(s)
    ensures Inv(r)
  {
    match e
    case EventPlayerJoin(name) =>
      if s.phase == LobbyNotReady || s.phase == LobbyReady then
        JoinKeepsInv(s, name);
        var ctx := AddPlayer(s.ctx, name);
        GameState(JoinedPhase(|ctx.players|), ctx)
      else s
    case EventStartGame(_) =>
      if s.phase == LobbyReady || s.phase == LobbyFull then EnterNextPlayer(s.ctx) else s
    case EventPlayCard(name, card, pile) =>
      if s.phase == PlayRequired || s.phase == PlayOptional then
        PlayKeepsInPlay(s.ctx, name, card, pile);
        var ctx := PlayCard(IncCardsPlayed(s.ctx), name, card, pile);
        GameState(CardPlayedPhase(ctx), ctx)
      else s
    case EventEndTurn(_) =>
      if s.phase == PlayOptional then EnterNextPlayer(s.ctx) else s
    case EventEndGame(_) => s
  }

  /** A sequence of events, one after the other, from a resting state. */
  function Run(s: GameState, events: seq<Event>): (r: GameState)
    requires Inv(s)
    ensures Inv(r)
    ensures |r.ctx.players| <= MaxAllowedPlayers
    decreases |events|
  {
    if events == [] then s else Run(Step(s, events[0]), events[1..])
  }

  // ---------------------------------------------------------------------------
  // The per-player view

  /** What a player is sent: everybody's name in seat order and the player's own hand. */
  datatype GameStateUpdate = GameStateUpdate(players: seq<string>, hand: seq<int>)

  /** `players.find((p) => p.name === name)`, as a seat index. */
  function FindPlayer(ps: seq<Player>, name: string): (r: Option<nat>)
    ensures r.Some? ==> (r.value < |ps| && ps[r.value].name == name &&
      forall j :: 0 <= j < r.value ==> ps[j].name != name)
    ensures r.None? ==> forall j :: 0 <= j < |ps| ==> ps[j].name != name
  {
    if ps == [] then None
    else if ps[0].name == name then Some(0)
    else match FindPlayer(ps[1..], name)
      case None => None
      case Some(k) => Some(k + 1)
  }

  /** `generateGameStateUpdate`: the view of the game for the player called `name`, if seated. */
  function GenerateGameStateUpdate(ctx: Context, name: string): (r: Option<GameStateUpdate>)
    ensures r.None? <==> forall i :: 0 <= i < |ctx.players| ==> ctx.players[i].name != name
    ensures r.Some? ==> (|r.value.players| == |ctx.players| &&
      forall i :: 0 <= i < |ctx.players| ==> r.value.players[i] == ctx.players[i].name)
    ensures r.Some? ==>
      exists i :: 0 <= i < |ctx.players| && ctx.players[i].name == name &&
                  r.value.hand == ctx.players[i].hand &&
                  forall j :: 0 <= j < i ==> ctx.players[j].name != name
  {
    match FindPlayer(ctx.players, name)
    case None => None
    case Some(i) =>
      Some(GameStateUpdate(
        seq(|ctx.players|, j requires 0 <= j < |ctx.players| => ctx.players[j].name),
        ctx.players[i].hand))
  }
}
