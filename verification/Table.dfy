/** A table's seats and its dealer button. */
module Table {
  import opened Domain
  import B = Betting

  datatype Seat = Seat(index: nat, player: PlayerID, stack: int)

  const NOBODY: PlayerID := ""

  predicate Occupied(s: Seat) {
    s.player != NOBODY
  }

  predicate Playable(s: Seat) {
    Occupied(s) && s.stack > 0
  }

  /** Seats are numbered by their place, empty ones hold nothing, nobody sits twice. */
  ghost predicate SeatsValid(seats: seq<Seat>) {
    && (forall i :: 0 <= i < |seats| ==> seats[i].index == i)
    && (forall i :: 0 <= i < |seats| && !Occupied(seats[i]) ==> seats[i].stack == 0)
    && (forall i, j :: 0 <= i < j < |seats| && Occupied(seats[i]) ==> seats[i].player != seats[j].player)
  }

  function SeatTotal(seats: seq<Seat>): int {
    if |seats| == 0 then 0 else SeatTotal(seats[..|seats| - 1]) + seats[|seats| - 1].stack
  }

  function PlayablePlayers(seats: seq<Seat>): seq<Seat> {
    if |seats| == 0 then []
    else PlayablePlayers(seats[..|seats| - 1]) + if Playable(seats[|seats| - 1]) then [seats[|seats| - 1]] else []
  }

  method ListPlayable(seats: seq<Seat>) returns (result: seq<Seat>)
    ensures result == PlayablePlayers(seats)
  {
    result := [];
    for i := 0 to |seats|
      invariant result == PlayablePlayers(seats[..i])
    {
      assert seats[..i + 1][..i] == seats[..i];
      if Playable(seats[i]) {
        result := result + [seats[i]];
      }
    }
    assert seats[..|seats|] == seats;
  }

  /** The playable players are the playable seats, in seat order. */
  lemma {:induction false} PlayableExact(seats: seq<Seat>)
    requires forall i :: 0 <= i < |seats| ==> seats[i].index == i
    ensures forall k :: 0 <= k < |PlayablePlayers(seats)| ==>
      var p := PlayablePlayers(seats)[k]; Playable(p) && p.index < |seats| && seats[p.index] == p
    ensures forall k, l :: 0 <= k < l < |PlayablePlayers(seats)| ==>
      PlayablePlayers(seats)[k].index < PlayablePlayers(seats)[l].index
    ensures forall i :: 0 <= i < |seats| && Playable(seats[i]) ==> seats[i] in PlayablePlayers(seats)
  {
    if |seats| > 0 {
      var last := |seats| - 1;
      PlayableExact(seats[..last]);
      forall i | 0 <= i < |seats| && Playable(seats[i]) ensures seats[i] in PlayablePlayers(seats) {
        assert i < last ==> seats[..last][i] == seats[i];
      }
    }
  }

  /** SeatByPlayerID: the first seat with this player; the empty name finds an empty seat. */
  function FindPlayer(seats: seq<Seat>, player: PlayerID, i: nat): (r: Option<nat>)
    requires i <= |seats|
    ensures r.Some? ==> i <= r.value < |seats| && seats[r.value].player == player
    ensures r.None? ==> forall k :: i <= k < |seats| ==> seats[k].player != player
    decreases |seats| - i
  {
    if i == |seats| then None
    else if seats[i].player == player then Some(i)
    else FindPlayer(seats, player, i + 1)
  }

  // ----- the button -----

  predicate PlayableAt(seats: seq<Seat>, i: nat) {
    i < |seats| && Playable(seats[i])
  }

  function FirstPlayable(seats: seq<Seat>, i: nat): nat
    requires i <= |seats|
    decreases |seats| - i
  {
    if i == |seats| then 0 else if Playable(seats[i]) then i else FirstPlayable(seats, i + 1)
  }

  /** NormalizedButtonSeat: the button's own seat if playable, else the first playable seat. */
  function NormalizedButton(seats: seq<Seat>, button: nat): nat {
    if PlayableAt(seats, button) then button else FirstPlayable(seats, 0)
  }

  function NextPlayable(seats: seq<Seat>, start: nat, offset: nat): (r: nat)
    requires start < |seats| && offset <= |seats| + 1
    decreases |seats| + 1 - offset
  {
    if offset > |seats| then start
    else if Playable(seats[B.At(|seats|, start, offset)]) then B.At(|seats|, start, offset)
    else NextPlayable(seats, start, offset + 1)
  }

  function Advanced(seats: seq<Seat>, button: nat): nat {
    if |PlayablePlayers(seats)| == 0 then 0
    else
      var start := NormalizedButton(seats, button);
      if start < |seats| then NextPlayable(seats, start, 1) else start
  }

  lemma {:induction false} NextPlayableIs(seats: seq<Seat>, start: nat, offset: nat, k: nat)
    requires start < |seats| && offset <= k <= |seats| && Playable(seats[B.At(|seats|, start, k)])
    requires forall j :: offset <= j < k ==> !Playable(seats[B.At(|seats|, start, j)])
    ensures NextPlayable(seats, start, offset) == B.At(|seats|, start, k)
    decreases k - offset
  {
    if offset < k {
      assert !Playable(seats[B.At(|seats|, start, offset)]);
      NextPlayableIs(seats, start, offset + 1, k);
    }
  }

  /** From the i-th playable seat the button goes to the next playable seat, round the table. */
  lemma AdvanceIsCyclic(seats: seq<Seat>, i: nat)
    requires forall s :: 0 <= s < |seats| ==> seats[s].index == s
    requires i < |PlayablePlayers(seats)|
    ensures var ps := PlayablePlayers(seats);
      Advanced(seats, ps[i].index) == ps[B.At(|ps|, i, 1)].index
  {
    var ps, n := PlayablePlayers(seats), |seats|;
    PlayableExact(seats);
    var b, q := ps[i].index, ps[B.At(|ps|, i, 1)].index;
    assert PlayableAt(seats, b) && Playable(seats[q]);
    var k := if q > b then q - b else q + n - b;
    assert B.At(n, b, k) == q;
    forall j | 1 <= j < k ensures !Playable(seats[B.At(n, b, j)]) {
      NoneBetween(seats, i, j, k);
    }
    NextPlayableIs(seats, b, 1, k);
  }

  lemma NoneBetween(seats: seq<Seat>, i: nat, j: nat, k: nat)
    requires forall s :: 0 <= s < |seats| ==> seats[s].index == s
    requires i < |PlayablePlayers(seats)| && 1 <= j < k <= |seats|
    requires var ps := PlayablePlayers(seats); var b, q := ps[i].index, ps[B.At(|ps|, i, 1)].index;
      b < |seats| && k == if q > b then q - b else q + |seats| - b
    ensures !Playable(seats[B.At(|seats|, PlayablePlayers(seats)[i].index, j)])
  {
    var ps, n := PlayablePlayers(seats), |seats|;
    PlayableExact(seats);
    var x, next := B.At(n, ps[i].index, j), B.At(|ps|, i, 1);
    forall l | 0 <= l < |ps| ensures ps[l].index != x {
      IndexOrder(seats, l, i);
      IndexOrder(seats, l, next);
    }
  }

  lemma IndexOrder(seats: seq<Seat>, k: nat, l: nat)
    requires forall s :: 0 <= s < |seats| ==> seats[s].index == s
    requires k < |PlayablePlayers(seats)| && l < |PlayablePlayers(seats)|
    ensures PlayablePlayers(seats)[k].index < |seats| && PlayablePlayers(seats)[l].index < |seats|
    ensures PlayablePlayers(seats)[k].index < PlayablePlayers(seats)[l].index <==> k < l
    ensures PlayablePlayers(seats)[k].index == PlayablePlayers(seats)[l].index <==> k == l
  {
    PlayableExact(seats);
  }

  /** Where the button is after j hands at which the same seats are playable. */
  function ButtonAfter(seats: seq<Seat>, button: nat, j: nat): nat {
    if j == 0 then button else Advanced(seats, ButtonAfter(seats, button, j - 1))
  }

  lemma {:induction false} ButtonWalk(seats: seq<Seat>, i: nat, j: nat)
    requires forall s :: 0 <= s < |seats| ==> seats[s].index == s
    requires var ps := PlayablePlayers(seats); i < |ps| && j <= |ps|
    ensures var ps := PlayablePlayers(seats); ButtonAfter(seats, ps[i].index, j) == ps[B.At(|ps|, i, j)].index
  {
    var ps := PlayablePlayers(seats);
    if j > 0 {
      ButtonWalk(seats, i, j - 1);
      AdvanceIsCyclic(seats, B.At(|ps|, i, j - 1));
      assert B.At(|ps|, B.At(|ps|, i, j - 1), 1) == B.At(|ps|, i, j);
    }
  }

  /** Button fairness: from a playable button with k playable seats, k advances come back to it and
      visit each playable seat exactly once. */
  lemma ButtonFairness(seats: seq<Seat>, button: nat, seat: nat) returns (j: nat)
    requires forall s :: 0 <= s < |seats| ==> seats[s].index == s
    requires PlayableAt(seats, button) && PlayableAt(seats, seat)
    ensures ButtonAfter(seats, button, |PlayablePlayers(seats)|) == button
    ensures 1 <= j <= |PlayablePlayers(seats)| && ButtonAfter(seats, button, j) == seat
    ensures forall m :: 1 <= m <= |PlayablePlayers(seats)| && ButtonAfter(seats, button, m) == seat ==> m == j
  {
    var ps := PlayablePlayers(seats);
    PlayableExact(seats);
    var i :| 0 <= i < |ps| && ps[i] == seats[button];
    var l :| 0 <= l < |ps| && ps[l] == seats[seat];
    var k := |ps|;
    ButtonWalk(seats, i, k);
    assert B.At(k, i, k) == i;
    j := if l > i then l - i else l + k - i;
    ButtonWalk(seats, i, j);
    assert B.At(k, i, j) == l;
    forall m | 1 <= m <= k && ButtonAfter(seats, button, m) == seat ensures m == j {
      ButtonWalk(seats, i, m);
      IndexOrder(seats, B.At(k, i, m), l);
    }
  }

  // ----- settling a finished hand -----

  function WithStack(seats: seq<Seat>, player: PlayerID, stack: int): seq<Seat> {
    match FindPlayer(seats, player, 0)
    case None => seats
    case Some(i) => seats[i := seats[i].(stack := stack)]
  }

  /** Copying the stacks of the first n players back to their seats. */
  function CopiedBack(seats: seq<Seat>, players: seq<Player>, n: nat): seq<Seat>
    requires n <= |players|
  {
    if n == 0 then seats else WithStack(CopiedBack(seats, players, n - 1), players[n - 1].id, players[n - 1].stack)
  }

  function Unseated(seats: seq<Seat>): seq<Seat> {
    seq(|seats|, i requires 0 <= i < |seats| =>
      if Occupied(seats[i]) && seats[i].stack == 0 then seats[i].(player := NOBODY) else seats[i])
  }

  class Seating {
    var seats: seq<Seat>
    var button: nat

    constructor (seats: seq<Seat>, button: nat)
      ensures this.seats == seats && this.button == button
    {
      this.seats, this.button := seats, button;
    }

    method AdvanceButton()
      requires SeatsValid(seats)
      modifies this`button
      ensures button == Advanced(seats, old(button))
    {
      var playable := ListPlayable(seats);
      if |playable| == 0 {
        button := 0;
        return;
      }
      PlayableExact(seats);
      assert Playable(playable[0]) && seats[playable[0].index] == playable[0];
      FirstPlayableFinds(seats, 0, playable[0].index);
      var start := NormalizedButton(seats, button);
      var offset := 1;
      while offset <= |seats|
        invariant 1 <= offset <= |seats| + 1
        invariant NextPlayable(seats, start, offset) == NextPlayable(seats, start, 1)
      {
        var idx := B.At(|seats|, start, offset);
        if Playable(seats[idx]) {
          button := idx;
          return;
        }
        offset := offset + 1;
      }
      button := start;
    }

    method ApplyStacksFromState(players: seq<Player>)
      modifies this`seats
      ensures seats == CopiedBack(old(seats), players, |players|)
    {
      for n := 0 to |players|
        invariant seats == CopiedBack(old(seats), players, n)
      {
        match FindPlayer(seats, players[n].id, 0) {
          case None =>
          case Some(i) => seats := seats[i := seats[i].(stack := players[n].stack)];
        }
      }
    }

    method UnseatBustedPlayers()
      modifies this`seats
      ensures seats == Unseated(old(seats))
    {
      ghost var after := Unseated(seats);
      for i := 0 to |seats|
        invariant |seats| == |old(seats)|
        invariant forall k :: 0 <= k < |seats| ==> seats[k] == if k < i then after[k] else old(seats)[k]
      {
        if Occupied(seats[i]) && seats[i].stack == 0 {
          seats := seats[i := seats[i].(player := NOBODY)];
        }
      }
    }
  }

  lemma {:induction false} FirstPlayableFinds(seats: seq<Seat>, i: nat, k: nat)
    requires i <= k < |seats| && Playable(seats[k])
    ensures i <= FirstPlayable(seats, i) < |seats| && Playable(seats[FirstPlayable(seats, i)])
    decreases k - i
  {
    if !Playable(seats[i]) {
      FirstPlayableFinds(seats, i + 1, k);
    }
  }
}
