/** The table service as an object: the saved table row, the engine's stored hand, and the requests
    that update a working copy of the row step by step before it is saved. */
module TableService {
  import opened Domain
  import B = Betting
  import opened Payout
  import opened HandInvariant
  import F = FinishHand
  import St = StartHand
  import HR = HandRun
  import E = Engine
  import opened Table
  import opened TableRun

  class Service {
    /** What the repository has. */
    var row: TableRow
    /** What the engine has for the row's active hand; over once it has finished there. */
    var game: E.GameState?
    var over: bool
    ghost var origin: Origin
    ghost var bought: int
    ghost var cashed: int
    ghost var raked: int
    ghost var intact: bool

    static ghost function HandOf(game: E.GameState?, over: bool, origin: Origin): Hand
      reads game
    {
      if game == null then NoHand
      else if over then Over(game.Snapshot(), origin) else Playing(game.Snapshot(), origin)
    }

    ghost function Snapshot(): System
      reads this, game
    {
      System(row, HandOf(game, over, origin), bought, cashed, raked, intact)
    }

    /** CreateTable, for arguments it accepts. */
    constructor (seatCount: int, smallBlind: int, bigBlind: int)
      requires Created(seatCount, smallBlind, bigBlind).Some?
      ensures Snapshot() == System(Created(seatCount, smallBlind, bigBlind).value, NoHand, 0, 0, 0, true)
    {
      row := Created(seatCount, smallBlind, bigBlind).value;
      game, over := null, false;
      bought, cashed, raked, intact := 0, 0, 0, true;
    }

    /** startHand on a working copy: a new engine hand and an updated copy, or an error. */
    method StartHand(table: TableRow, handId: string, deck: seq<Card>)
      returns (ok: bool, begun: TableRow, hand: E.GameState?, ghost o: Origin)
      ensures match OpenHand(table, handId, deck)
        case OpenError => !ok
        case Opened(t, h) => ok && begun == t && hand != null && fresh(hand) && Playing(hand.Snapshot(), o) == h
    {
      begun, hand := table, null;
      o := St.OriginOf(HandInput(table), deck);
      match St.Start(HandInput(table), deck) {
        case StartError(_) =>
          ok := false;
        case Started(s) =>
          hand := new E.GameState(s);
          begun := begun.(activeHand := handId);
          begun := begun.(phase := InHand);
          ok := true;
      }
    }

    /** A hand for the working copy, if one can start now. */
    method OpenIfReady(table: TableRow, handId: string, deck: seq<Card>)
      returns (ok: bool, next: TableRow, hand: E.GameState?, stillOver: bool, ghost o: Origin)
      ensures ok <==> SaveOrStart(Snapshot(), table, handId, deck).Some?
      ensures ok ==>
        SaveOrStart(Snapshot(), table, handId, deck)
        == Some(System(next, HandOf(hand, stillOver, o), bought, cashed, raked, intact))
    {
      ok, next, hand, stillOver, o := true, table, game, over, origin;
      if CanAutoStart(table) {
        ok, next, hand, o := StartHand(table, handId, deck);
        stillOver := false;
      }
    }


    /** `debited` and `saved` are how the calls to the wallet and the repository ended. */
    method JoinTable(player: PlayerID, seat: int, buyIn: int, debited: bool, handId: string, deck: seq<Card>,
                     saved: bool)
      returns (ok: bool)
      modifies this
      ensures Snapshot() == Joined(old(Snapshot()), Join(player, seat, buyIn, debited, handId, deck, saved))
    {
      var table := row;
      if buyIn <= 0 || seat < 0 || seat >= |table.seats| {
        return false;
      }
      if FindPlayer(table.seats, player, 0).Some? || Occupied(table.seats[seat]) || !debited {
        return false;
      }
      table := table.(seats := table.seats[seat := table.seats[seat].(player := player, stack := buyIn)]);
      var started, next, hand, stillOver;
      ghost var o;
      started, next, hand, stillOver, o := OpenIfReady(table, handId, deck);
      if !started || !saved {
        return false;
      }
      row, game, over, origin := next, hand, stillOver, o;
      bought := bought + buyIn;
      return true;
    }

    method LeaveTable(player: PlayerID, credited: bool, saved: bool) returns (ok: bool)
      modifies this`row, this`cashed
      ensures Snapshot() == Left(old(Snapshot()), Leave(player, credited, saved))
    {
      var table := row;
      if table.phase == InHand {
        return false;
      }
      var found := FindPlayer(table.seats, player, 0);
      if found.None? || !credited {
        return false;
      }
      ghost var stack := table.seats[found.value].stack;
      table := table.(seats := table.seats[found.value := table.seats[found.value].(player := NOBODY, stack := 0)]);
      if !saved {
        return false;
      }
      row := table;
      cashed := cashed + stack;
      return true;
    }

    /** Copies the stacks back, unseats the busted and moves the button of a working copy. */
    method Settle(table: TableRow, players: seq<Player>) returns (settled: TableRow)
      requires SeatsValid(TableRun.Settled(table, players).seats)
      ensures settled == TableRun.Settled(table, players)
    {
      var seating := new Seating(table.seats, table.button);
      seating.ApplyStacksFromState(players);
      seating.UnseatBustedPlayers();
      settled := table.(activeHand := "", phase := Idle);
      seating.AdvanceButton();
      settled := settled.(seats := seating.seats, button := seating.button);
    }

    /** Act. `orders` is how the pots were paid, if they were. */
    method Act(player: PlayerID, kind: ActionType, amount: int, rake: RakeConfig, handId: string, deck: seq<Card>,
               saved: bool)
      returns (ok: bool, ghost orders: seq<seq<PlayerID>>)
      requires SysInv(Snapshot()) && ValidRake(rake) && handId != ""
      modifies this
      ensures Next(old(Snapshot()), TableRun.Act(player, kind, amount, rake, orders, handId, deck, saved), Snapshot())
      ensures SysInv(Snapshot())
    {
      orders := [];
      ghost var before := Snapshot();
      if row.activeHand == "" {
        return false, orders;
      }
      ok, orders := Drive(Action(player, kind, amount), rake, handId, deck, saved);
      ActIsStep(before, TableRun.Act(player, kind, amount, rake, orders, handId, deck, saved), Snapshot());
    }

    /** Act on a table with an active hand. */
    method Drive(a: Action, rake: RakeConfig, handId: string, deck: seq<Card>, saved: bool)
      returns (ok: bool, ghost orders: seq<seq<PlayerID>>)
      requires SysInv(Snapshot()) && game != null && ValidRake(rake) && handId != "" && row.activeHand != ""
      modifies this
      ensures var e := TableRun.Act(a.playerID, a.kind, a.amount, rake, orders, handId, deck, saved);
        Driven(old(Snapshot()), e, Snapshot())
    {
      ghost var sys := Snapshot();
      HandIsReady(sys);
      if FindPlayer(row.seats, a.playerID, 0).None? {
        ok := false;
        orders := NobodyActs(sys, TableRun.Act(a.playerID, a.kind, a.amount, rake, [], handId, deck, saved));
        return;
      }
      ok, orders := DriveSeated(a, rake, handId, deck, saved);
    }

    /** Act by someone who sits at the table. */
    method DriveSeated(a: Action, rake: RakeConfig, handId: string, deck: seq<Card>, saved: bool)
      returns (ok: bool, ghost orders: seq<seq<PlayerID>>)
      requires SysInv(Snapshot()) && game != null && ValidRake(rake) && row.activeHand != ""
      requires HR.Ready(game.Snapshot()) && NoDebt(game.pots) && FindPlayer(row.seats, a.playerID, 0).Some?
      modifies this
      ensures var e := TableRun.Act(a.playerID, a.kind, a.amount, rake, orders, handId, deck, saved);
        Driven(old(Snapshot()), e, Snapshot())
    {
      ghost var sys := Snapshot();
      var reply, working;
      reply, working, orders := TryAction(a, rake);
      ghost var e := TableRun.Act(a.playerID, a.kind, a.amount, rake, orders, handId, deck, saved);
      AnsweredAs(sys.hand.s, e, reply, working.Snapshot());
      AnswerDrives(sys, e);
      if reply.Refused? {
        return false, orders;
      }
      if working.street != Showdown {
        game, over := working, false;
        return true, orders;
      }
      SettledSeats(sys, e, working.Snapshot(), if reply.Finished? then reply.rake else 0);
      ok := ShowHand(working, if reply.Finished? then reply.rake else 0, handId, deck, saved, e);
    }

    /** The engine's answer, on a hand of its own. */
    method TryAction(a: Action, rake: RakeConfig)
      returns (reply: E.Reply, working: E.GameState, ghost orders: seq<seq<PlayerID>>)
      requires game != null && HR.Ready(game.Snapshot()) && NoDebt(game.pots) && ValidRake(rake)
      ensures fresh(working) && E.Answers(game.Snapshot(), a, rake, reply, orders, working.Snapshot())
    {
      working := new E.GameState(game.Snapshot());
      reply, orders := working.Execute(a, rake);
    }

    /** The showdown branch of Act. */
    method ShowHand(done: E.GameState, taken: int, handId: string, deck: seq<Card>, saved: bool, ghost e: Event)
      returns (ok: bool)
      requires SeatsValid(TableRun.Settled(row, done.players).seats) && game != null && done != game
      requires row.activeHand != "" && e.Act? && (e.handId, e.deck, e.saved) == (handId, deck, saved)
      requires FindPlayer(row.seats, e.player, 0).Some?
      requires OrdersFit(game.Snapshot(), e) && AnswerTo(game.Snapshot(), e) == Shown(done.Snapshot(), taken)
      modifies this
      ensures Driven(old(Snapshot()), e, Snapshot())
    {
      ghost var sys := Snapshot();
      var table := Settle(row, done.players);
      ok := SaveSettled(table, done, taken, handId, deck, saved);
      ShownDrives(sys, e, done.Snapshot(), taken, Snapshot());
    }

    /** Opens the next hand if one can start and saves; if that fails the row stays as it was. */
    method SaveSettled(table: TableRow, done: E.GameState, taken: int, handId: string, deck: seq<Card>, saved: bool)
      returns (ok: bool)
      modifies this
      ensures var marked := old(Snapshot().(intact := intact && !over));
        var settled := SaveOrStart(marked.(hand := NoHand), table, handId, deck);
        Snapshot() == if settled.None? || !saved then marked.(hand := Over(done.Snapshot(), old(origin)))
                      else settled.value.(raked := marked.raked + taken)
    {
      intact := intact && !over;
      if CanAutoStart(table) {
        var started, begun, hand;
        ghost var o;
        started, begun, hand, o := StartHand(table, handId, deck);
        if !started || !saved {
          game, over := done, true;
          return false;
        }
        row, game, over, origin := begun, hand, false, o;
      } else if !saved {
        game, over := done, true;
        return false;
      } else {
        row, game, over := table, null, false;
      }
      raked := raked + taken;
      return true;
    }
  }

  /** What Act does to a table with an active hand. */
  ghost predicate Driven(sys: System, e: Event, sys': System) {
    e.Act? && !sys.hand.NoHand? && OrdersFit(sys.hand.s, e) && sys' == Acted(sys, e)
  }

  lemma HandIsReady(sys: System)
    requires SysInv(sys) && !sys.hand.NoHand?
    ensures HR.Ready(sys.hand.s) && NoDebt(sys.hand.s.pots)
  {}

  lemma NobodyActs(sys: System, e: Event) returns (orders: seq<seq<PlayerID>>)
    requires e.Act? && !sys.hand.NoHand? && HR.Ready(sys.hand.s) && FindPlayer(sys.table.seats, e.player, 0).None?
    ensures Driven(sys, e.(orders := orders), sys)
  {
    orders := [];
    var r := B.Execute(sys.hand.s, Action(e.player, e.kind, e.amount));
    if r.Ends? {
      orders := F.AnyOrders(F.Netted(r.final, e.rake).pots);
    }
  }

  lemma AnsweredAs(s: State, e: Event, reply: E.Reply, after: State)
    requires e.Act? && E.Answers(s, Action(e.player, e.kind, e.amount), e.rake, reply, e.orders, after)
    ensures OrdersFit(s, e)
    ensures AnswerTo(s, e) ==
      if reply.Refused? then Refusal
      else if after.street != Showdown then InPlay(after)
      else Shown(after, if reply.Finished? then reply.rake else 0)
  {}

  lemma AnswerDrives(sys: System, e: Event)
    requires e.Act? && !sys.hand.NoHand? && OrdersFit(sys.hand.s, e)
    requires sys.table.activeHand != "" && FindPlayer(sys.table.seats, e.player, 0).Some?
    ensures match AnswerTo(sys.hand.s, e)
      case Refusal => Driven(sys, e, sys)
      case InPlay(next) => Driven(sys, e, sys.(hand := Playing(next, sys.hand.o)))
      case Shown(_, _) => true
  {}

  lemma ShownDrives(sys: System, e: Event, done: State, rake: int, sys': System)
    requires e.Act? && !sys.hand.NoHand? && OrdersFit(sys.hand.s, e) && AnswerTo(sys.hand.s, e) == Shown(done, rake)
    requires sys.table.activeHand != "" && FindPlayer(sys.table.seats, e.player, 0).Some?
    requires var marked := sys.(intact := sys.intact && sys.hand.Playing?);
      var settled := SaveOrStart(marked.(hand := NoHand), TableRun.Settled(sys.table, done.players), e.handId, e.deck);
      sys' == if settled.None? || !e.saved then marked.(hand := Over(done, sys.hand.o))
              else settled.value.(raked := sys.raked + rake)
    ensures Driven(sys, e, sys')
  {}

  /** Whatever was shown, the seats it is copied back to stay valid. */
  lemma SettledSeats(sys: System, e: Event, done: State, rake: int)
    requires SysInv(sys) && !sys.hand.NoHand? && OrdersFit(sys.hand.s, e) && ValidRake(e.rake)
    requires AnswerTo(sys.hand.s, e) == Shown(done, rake)
    ensures SeatsValid(TableRun.Settled(sys.table, done.players).seats)
  {
    if sys.hand.Playing? {
      PlayingAnswers(sys.hand.s, sys.hand.o, e);
    } else {
      FinishedStays(sys.hand.s, sys.hand.o, e);
    }
    SettleTotal(sys.table, done.players, sys.hand.o);
  }

  lemma ActIsStep(sys: System, e: Event, sys': System)
    requires SysInv(sys) && e.Act? && ValidRake(e.rake) && e.handId != "" && Driven(sys, e, sys')
    ensures Next(sys, e, sys') && SysInv(sys')
  {
    NextKeepsInv(sys, e, sys');
  }
}
