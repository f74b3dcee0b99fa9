/** The vehicle listener: when a vehicle carrying players moves into a block
    one of them may not enter, the vehicle is stopped and sent back. */
module VehicleListener {
  import opened Base
  import opened Actors

  /** The session's `testMoveTo` for a player moving to a location while
      riding: `None` if the move is allowed, otherwise the last location the
      player validly stood at. */
  type MoveTest = (Id, Location) -> Option<Location>

  /** What a rejected move does: the vehicle's velocity is zeroed and it is
      teleported to `vehicleTo`; the rejected player is teleported to
      `playerTo` when that is present. */
  datatype Rollback = Rollback(rejected: Id, vehicleTo: Location, playerTo: Option<Location>)

  /** The passengers that are players, in passenger order. */
  function PlayerPassengers(ps: seq<Actor>): (r: seq<Actor>)
    ensures forall a :: a in r <==> a in ps && IsPlayer(a.body)
    ensures |r| <= |ps|
  {
    if |ps| == 0 then []
    else (if IsPlayer(ps[0].body) then [ps[0]] else []) + PlayerPassengers(ps[1..])
  }

  /** The filter keeps passenger order: the players of two passenger
      lists laid end to end are those of the first, then those of the
      second. */
  lemma {:induction false} PlayerPassengersConcat(a: seq<Actor>, b: seq<Actor>)
    ensures PlayerPassengers(a + b) == PlayerPassengers(a) + PlayerPassengers(b)
    decreases |a|
  {
    if |a| == 0 {
      assert a + b == b;
    } else {
      assert (a + b)[0] == a[0] && (a + b)[1..] == a[1..] + b;
      PlayerPassengersConcat(a[1..], b);
    }
  }

  /** A single passenger is kept exactly when it is a player. */
  lemma PlayerPassengersSingle(p: Actor)
    ensures PlayerPassengers([p]) == if IsPlayer(p.body) then [p] else []
  {
    assert [p][1..] == [];
  }

  /** The index of the first player whose move is rejected. */
  function FirstRejected(players: seq<Actor>, to: Location, test: MoveTest): (r: Option<nat>)
    ensures r.Some? ==> r.value < |players| && test(players[r.value].id, to).Some?
                        && forall j :: 0 <= j < r.value ==> test(players[j].id, to).None?
    ensures r.None? ==> forall j :: 0 <= j < |players| ==> test(players[j].id, to).None?
  {
    if |players| == 0 then None
    else if test(players[0].id, to).Some? then Some(0)
    else match FirstRejected(players[1..], to, test)
      case None => None
      case Some(k) => Some(k + 1)
  }

  /** Where a rejected player is put back: at the last valid location,
      facing as they face now, unless that is the block the vehicle returns
      to, in which case the player stays. */
  function PlayerReturn(player: Actor, lastValid: Location, from: Location): Option<Location>
    requires player.body.EntityBody?
  {
    if IsDifferentBlock(lastValid, from) then Some(Location(lastValid.block, player.body.entity.location.look))
    else None
  }

  /** The decision `onVehicleMove` takes, stated through the first rejected
      player. */
  function Decision(passengers: seq<Actor>, useRegions: bool, from: Location, to: Location, test: MoveTest): Option<Rollback>
  {
    var players := PlayerPassengers(passengers);
    if |players| == 0 || !useRegions || !IsDifferentBlock(from, to) then None
    else match FirstRejected(players, to, test)
      case None => None
      case Some(k) =>
        var p := players[k];
        assert p in players;
        Some(Rollback(p.id, from, PlayerReturn(p, test(p.id, to).value, from)))
  }

  /** `onVehicleMove`: the player passengers are checked in order and the
      first rejection ends the handler. */
  method OnVehicleMove(passengers: seq<Actor>, useRegions: bool, from: Location, to: Location, test: MoveTest)
    returns (r: Option<Rollback>)
    ensures r == Decision(passengers, useRegions, from, to, test)
    ensures r.Some? ==> r.value.vehicleTo == from && useRegions && IsDifferentBlock(from, to)
  {
    if |passengers| == 0 {
      return None;
    }
    var players := PlayerPassengers(passengers);
    if |players| == 0 {
      return None;
    }
    r := None;
    if useRegions && IsDifferentBlock(from, to) {
      var i := 0;
      while i < |players|
        invariant 0 <= i <= |players|
        invariant forall j :: 0 <= j < i ==> test(players[j].id, to).None?
        decreases |players| - i
      {
        var player := players[i];
        var lastValid := test(player.id, to);
        if lastValid.Some? {
          assert player in players;
          FirstRejectedAt(players, to, test, i);
          return Some(Rollback(player.id, from, PlayerReturn(player, lastValid.value, from)));
        }
        i := i + 1;
      }
      FirstRejectedNone(players, to, test);
    }
  }

  lemma FirstRejectedAt(players: seq<Actor>, to: Location, test: MoveTest, i: nat)
    requires i < |players| && test(players[i].id, to).Some?
    requires forall j :: 0 <= j < i ==> test(players[j].id, to).None?
    ensures FirstRejected(players, to, test) == Some(i)
  {
  }

  lemma FirstRejectedNone(players: seq<Actor>, to: Location, test: MoveTest)
    requires forall j :: 0 <= j < |players| ==> test(players[j].id, to).None?
    ensures FirstRejected(players, to, test) == None
  {
  }

  /** When every player may move, nothing is moved. */
  lemma AllAcceptedNoRollback(passengers: seq<Actor>, useRegions: bool, from: Location, to: Location, test: MoveTest)
    requires forall a :: a in passengers && IsPlayer(a.body) ==> test(a.id, to).None?
    ensures Decision(passengers, useRegions, from, to, test) == None
  {
    var players := PlayerPassengers(passengers);
    forall j | 0 <= j < |players| ensures test(players[j].id, to).None? {
      assert players[j] in players;
    }
    FirstRejectedNone(players, to, test);
  }

  /** A vehicle without player passengers is never rolled back. */
  lemma NoPlayersNoRollback(passengers: seq<Actor>, useRegions: bool, from: Location, to: Location, test: MoveTest)
    requires forall a :: a in passengers ==> !IsPlayer(a.body)
    ensures Decision(passengers, useRegions, from, to, test) == None
  {
  }

  /** Players after the first rejected one are never consulted: two tests
      that agree up to and including the first rejection decide alike. */
  lemma {:induction false} LaterPlayersNotConsulted(players: seq<Actor>, to: Location, t1: MoveTest, t2: MoveTest, k: nat)
    requires FirstRejected(players, to, t1) == Some(k)
    requires forall j :: 0 <= j <= k ==> t1(players[j].id, to) == t2(players[j].id, to)
    ensures FirstRejected(players, to, t2) == Some(k)
  {
    if t1(players[0].id, to).None? {
      var rest := FirstRejected(players[1..], to, t1);
      assert rest == Some(k - 1);
      LaterPlayersNotConsulted(players[1..], to, t1, t2, k - 1);
    }
  }

  /** A rejected player lands on the last valid location iff it lies in a
      different block from where the vehicle returns, keeping their facing. */
  lemma RejectedPlayerReturn(passengers: seq<Actor>, from: Location, to: Location, test: MoveTest)
    requires Decision(passengers, true, from, to, test).Some?
    ensures var rb := Decision(passengers, true, from, to, test).value;
            var lv := test(rb.rejected, to);
            lv.Some? && (rb.playerTo.Some? <==> IsDifferentBlock(lv.value, from))
            && (rb.playerTo.Some? ==> rb.playerTo.value.block == lv.value.block)
  {
  }
}
