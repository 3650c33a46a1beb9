/**
 * Rooms: the room-code allocator and the registry of live rooms, each room being the
 * current state of its game machine. The random numbers behind a code are supplied by the
 * caller: each draw is the position in the alphabet that the random generator picked.
 */
module Rooms {
  import opened Wrappers
  import opened Game

  /** The code alphabet: capital letters without I, L and O, which are easily misread. */
  const Characters: string := "ABCDEFGHJKMNPQRSTUVWXYZ"
  const RoomCodeLength: nat := 4

  /** Draws of the random index: each picks a position in Characters. */
  predicate ValidDraws(draws: seq<nat>) {
    forall i :: 0 <= i < |draws| ==> draws[i] < |Characters|
  }

  /** The code a sequence of draws spells. */
  ghost function Spelled(draws: seq<nat>): string
    requires ValidDraws(draws)
  {
    seq(|draws|, i requires 0 <= i < |draws| => Characters[draws[i]])
  }

  /** Candidate codes for one room: each is four valid draws. */
  predicate ValidCandidates(candidates: seq<seq<nat>>) {
    forall k :: 0 <= k < |candidates| ==>
      |candidates[k]| == RoomCodeLength && ValidDraws(candidates[k])
  }

  /** The alphabet has 23 capital letters and none of I, L, O. */
  lemma CharactersAreUnambiguous()
    ensures |Characters| == 23
    ensures 'I' !in Characters && 'L' !in Characters && 'O' !in Characters
    ensures forall i :: 0 <= i < |Characters| ==> 'A' <= Characters[i] <= 'Z'
  {
  }

  /** `generateID`: one character of the alphabet per draw, appended in order. */
  method GenerateID(length: nat, draws: seq<nat>) returns (id: string)
    requires |draws| == length && ValidDraws(draws)
    ensures |id| == length
    ensures forall i :: 0 <= i < length ==> id[i] == Characters[draws[i]] && id[i] in Characters
  {
    id := "";
    for i := 0 to length
      invariant |id| == i
      invariant forall k :: 0 <= k < i ==> id[k] == Characters[draws[k]]
    {
      id := id + [Characters[draws[i]]];
    }
  }

  /** The registry of live rooms, by code. */
  class Registry {
    var games: map<string, GameState>

    /** Every live room rests in a state its machine can be in. */
    ghost predicate Valid()
      reads this
    {
      forall code :: code in games ==> Inv(games[code])
    }

    constructor ()
      ensures Valid() && games == map[]
    {
      games := map[];
    }

    /**
     * `createRoomCode`: try the candidates in order and return the first code that is not
     * a live room's. Some candidate must be free, or the original keeps drawing forever.
     */
    method CreateRoomCode(candidates: seq<seq<nat>>) returns (code: string)
      requires ValidCandidates(candidates)
      requires exists k :: 0 <= k < |candidates| && Spelled(candidates[k]) !in games
      ensures |code| == RoomCodeLength
      ensures forall i :: 0 <= i < |code| ==> code[i] in Characters
      ensures code !in games
      ensures exists k :: 0 <= k < |candidates| && code == Spelled(candidates[k]) &&
                          forall j :: 0 <= j < k ==> Spelled(candidates[j]) in games
    {
      ghost var free :| 0 <= free < |candidates| && Spelled(candidates[free]) !in games;
      var k := 0;
      code := GenerateID(RoomCodeLength, candidates[0]);
      assert code == Spelled(candidates[0]);
      while code in games
        invariant k <= free
        invariant code == Spelled(candidates[k])
        invariant forall j :: 0 <= j < k ==> Spelled(candidates[j]) in games
        decreases free - k
      {
        k := k + 1;
        code := GenerateID(RoomCodeLength, candidates[k]);
        assert code == Spelled(candidates[k]);
      }
    }

    /** `createGame`: open a room under a fresh code, in the machine's initial state. */
    method CreateGame(candidates: seq<seq<nat>>) returns (code: string)
      requires Valid()
      requires ValidCandidates(candidates)
      requires exists k :: 0 <= k < |candidates| && Spelled(candidates[k]) !in games
      modifies this
      ensures Valid()
      ensures code !in old(games) && |code| == RoomCodeLength
      ensures games == old(games)[code := InitialState()]
      ensures games.Keys == old(games).Keys + {code} && |games| == |old(games)| + 1
    {
      code := CreateRoomCode(candidates);
      games := games[code := InitialState()];
    }

    /** `getGame`: the room under `code`, or the error the original throws. */
    function GetGame(code: string): (r: Result<GameState>)
      reads this
      ensures r.Ok? <==> code in games
      ensures r.Ok? ==> r.value == games[code]
      ensures r.Err? ==> r.message == "Could not get game " + code
    {
      if code in games then Ok(games[code]) else Err("Could not get game " + code)
    }

    /** `getGame(code).transition(event)`: the room's machine takes one event. */
    method Transition(code: string, e: Event) returns (r: Result<()>)
      requires Valid()
      modifies this
      ensures Valid()
      ensures r.Ok? <==> code in old(games)
      ensures code in old(games) ==> games == old(games)[code := Step(old(games)[code], e)]
      ensures code !in old(games) ==> games == old(games) && r == Err("Could not get game " + code)
    {
      match GetGame(code)
      case Err(message) =>
        r := Err(message);
      case Ok(state) =>
        games := games[code := Step(state, e)];
        r := Ok(());
    }
  }
}
