/** The saved-data dialog shared by the guest's polling thread and the main thread's pump: requests are
    numbered, the pump works on a ticket that names a number, and the guest may close or replace the
    request at any moment. Every guest call and every critical section of the pump is one event; the
    theorems hold for every interleaving. */
module SaveDialog {
  const UINT32_MAX: nat := 0xFFFF_FFFF
  const GENERATIONS: nat := 0xFFFF_FFFF_FFFF_FFFF   // 64-bit numbers other than zero

  datatype Slot = Slot(dirName: string, caption: string)

  datatype Request = Request(progress: bool, slotList: bool, slots: seq<Slot>)

  datatype Status = NotOpen | Running | Finished

  datatype Dialog = Dialog(
    request: Request, status: Status, button: nat, progress: nat, canceled: bool, dirName: string,
    generation: nat, pending: nat)

  datatype Ticket = NoTicket | Ticket(generation: nat, request: Request)

  /** Nothing was ever begun. */
  function Fresh(): Dialog {
    Dialog(Request(false, false, []), NotOpen, 0, 0, false, "", 0, 0)
  }

  /** The 64-bit increment, which skips the number reserved for "no ticket". */
  function Bumped(generation: nat): nat {
    var next := if generation == GENERATIONS then 0 else generation + 1;
    if next == 0 then 1 else next
  }

  function Open(d: Dialog, request: Request): Dialog {
    var generation := Bumped(d.generation);
    Dialog(request, Running, 0, 0, false, "", generation, if request.progress then 0 else generation)
  }

  function Close(d: Dialog): Dialog {
    d.(generation := Bumped(d.generation), pending := 0, status := NotOpen)
  }

  predicate Offers(d: Dialog) {
    d.pending != 0 && d.pending == d.generation && d.status.Running?
  }

  function Taken(d: Dialog): Ticket {
    if Offers(d) then Ticket(d.pending, d.request) else NoTicket
  }

  function AfterTake(d: Dialog): Dialog {
    d.(pending := 0)
  }

  predicate Active(d: Dialog, generation: nat) {
    generation != 0 && d.generation == generation && d.status.Running?
  }

  function Complete(d: Dialog, generation: nat, clicked: int): Dialog {
    if !Active(d, generation) then d
    else d.(canceled := clicked <= 0, button := if clicked <= 0 then 0 else clicked, status := Finished)
  }

  /** Unlike the other two completions this one does not ask whether the number is zero. */
  predicate TakesSelection(d: Dialog, generation: nat) {
    d.status.Running? && generation == d.generation && d.request.slotList
  }

  function CompleteList(d: Dialog, generation: nat, selected: int): Dialog {
    if !TakesSelection(d, generation) then d
    else
      var picked := 0 <= selected < |d.request.slots|;
      d.(dirName := if picked then d.request.slots[selected].dirName else "",
         canceled := !picked, button := 0, status := Finished)
  }

  function ProgressInc(d: Dialog, target: nat, delta: nat): Dialog {
    if target != 0 || !d.status.Running? || !d.request.progress then d
    else d.(progress := if d.progress + delta > UINT32_MAX then UINT32_MAX else d.progress + delta)
  }

  function ProgressSet(d: Dialog, target: nat, value: nat): Dialog {
    if target != 0 || !d.status.Running? || !d.request.progress then d else d.(progress := value)
  }

  function FinishProgress(d: Dialog, generation: nat): Dialog {
    if !Active(d, generation) || !d.request.progress then d
    else d.(button := 0, canceled := false, status := Finished)
  }

  /** The number the progress window is drawn for, zero when there is nothing to draw. */
  function ProgressShown(d: Dialog): nat {
    if d.status.Running? && d.request.progress then d.generation else 0
  }

  // --- numbering -----------------------------------------------------------------------------------

  /** The number in force after `epoch` opens and closes. */
  function Numbered(epoch: nat): (g: nat)
    ensures g <= GENERATIONS && (g == 0 <==> epoch == 0)
  {
    if epoch == 0 then 0 else Bumped(Numbered(epoch - 1))
  }

  function Rounds(k: int): int {
    k * 0xFFFF_FFFF_FFFF_FFFF
  }

  lemma {:induction false} RoundOf(epoch: nat) returns (k: nat)
    requires epoch > 0
    ensures epoch == Rounds(k) + Numbered(epoch)
  {
    if epoch == 1 {
      k := 0;
    } else {
      k := RoundOf(epoch - 1);
      if Numbered(epoch - 1) == GENERATIONS {
        k := k + 1;
      }
    }
  }

  /** Two opens or closes share a number exactly when a whole number of rounds lies between them. */
  lemma SameNumber(e1: nat, e2: nat)
    requires 0 < e1 <= e2
    ensures Numbered(e1) == Numbered(e2) <==> exists k: nat :: e2 == e1 + Rounds(k)
  {
    var k1 := RoundOf(e1);
    var k2 := RoundOf(e2);
    if Numbered(e1) == Numbered(e2) {
      assert e2 == e1 + Rounds(k2 - k1);
    }
  }

  // --- the two threads -----------------------------------------------------------------------------

  /** Where the pump is: between frames, about to report a progress window that could not be begun,
      about to ask for a ticket, showing a modal, or about to deliver its answer. `epoch` is the open
      the ticket or snapshot came from. */
  datatype Pump =
    | Start
    | ProgressFailed(generation: nat, epoch: nat)
    | BeforeTake
    | Showing(ticket: Ticket, epoch: nat)
    | Answered(ticket: Ticket, epoch: nat, answer: int)

  /** A completion that changed the dialog: for which open the pump was working, which one it hit, and
      what it recorded. A progress window that could not be shown answers nothing. */
  datatype Effect = Effect(workedFor: nat, asked: Request, hit: nat, before: Dialog, after: Dialog, answer: Answer)

  datatype Answer = Clicked(clicked: int) | Selected(selected: int) | Unshown

  /** `epoch` counts opens and closes, `issued` lists the opens a ticket was issued for. */
  datatype World = World(dialog: Dialog, epoch: nat, pump: Pump, issued: seq<nat>, effects: seq<Effect>)

  datatype Event =
    | GuestOpen(request: Request)
    | GuestClose
    | GuestInc(target: nat, delta: nat)
    | GuestSet(target: nat, value: nat)
    | Draw(fails: bool)
    | Fail
    | Take
    | Answer(answer: int)
    | Deliver

  const INVALIDATED: int := -2

  predicate Enabled(w: World, e: Event) {
    match e
    case Draw(_) => w.pump.Start?
    case Fail => w.pump.ProgressFailed?
    case Take => w.pump.BeforeTake?
    case Answer(a) => w.pump.Showing? && w.pump.ticket.Ticket? && (a == INVALIDATED <==> !Active(w.dialog, w.pump.ticket.generation))
    case Deliver => w.pump.Answered?
    case _ => true
  }

  function Logged(w: World, asked: Request, after: Dialog, answer: Answer): seq<Effect>
    requires w.pump.ProgressFailed? || w.pump.Answered?
  {
    if after == w.dialog then w.effects
    else w.effects + [Effect(w.pump.epoch, asked, w.epoch, w.dialog, after, answer)]
  }

  function Delivered(d: Dialog, t: Ticket, answer: int): Dialog
    requires t.Ticket?
  {
    if t.request.slotList then CompleteList(d, t.generation, answer) else Complete(d, t.generation, answer)
  }

  function Next(w: World, e: Event): World
    requires Enabled(w, e) && PumpHasTicket(w.pump)
  {
    match e
    case GuestOpen(request) => w.(dialog := Open(w.dialog, request), epoch := w.epoch + 1)
    case GuestClose => w.(dialog := Close(w.dialog), epoch := w.epoch + 1)
    case GuestInc(target, delta) => w.(dialog := ProgressInc(w.dialog, target, delta))
    case GuestSet(target, value) => w.(dialog := ProgressSet(w.dialog, target, value))
    case Draw(fails) =>
      var shown := ProgressShown(w.dialog);
      w.(pump := if fails && shown != 0 then ProgressFailed(shown, w.epoch) else BeforeTake)
    case Fail =>
      var after := FinishProgress(w.dialog, w.pump.generation);
      w.(dialog := after, pump := BeforeTake, effects := Logged(w, w.dialog.request, after, Unshown))
    case Take =>
      var ticket := Taken(w.dialog);
      w.(dialog := AfterTake(w.dialog),
         pump := if ticket.Ticket? then Showing(ticket, w.epoch) else Start,
         issued := if ticket.Ticket? then w.issued + [w.epoch] else w.issued)
    case Answer(a) =>
      w.(pump := if a == INVALIDATED then Start else Answered(w.pump.ticket, w.pump.epoch, a))
    case Deliver =>
      var t := w.pump.ticket;
      var after := Delivered(w.dialog, t, w.pump.answer);
      w.(dialog := after, pump := Start,
         effects := Logged(w, t.request, after,
                           if t.request.slotList then Selected(w.pump.answer) else Clicked(w.pump.answer)))
  }

  predicate PumpHasTicket(p: Pump) {
    (p.Showing? || p.Answered?) ==> p.ticket.Ticket?
  }

  // --- invariant -----------------------------------------------------------------------------------

  predicate Increasing(epochs: seq<nat>) {
    forall i, j :: 0 <= i < j < |epochs| ==> epochs[i] < epochs[j]
  }

  predicate HitsIncrease(effects: seq<Effect>) {
    forall i, j :: 0 <= i < j < |effects| ==> effects[i].hit < effects[j].hit
  }

  /** What the answer to a ticket's request leaves behind. */
  predicate Records(e: Effect) {
    && e.before.status.Running? && e.after.status.Finished?
    && e.after.request == e.before.request
    && match e.answer
       case Unshown => e.before.request.progress && !e.after.canceled && e.after.button == 0
       case Clicked(c) =>
         && (e.after.canceled <==> c <= 0)
         && e.after.button == (if c <= 0 then 0 else c)
         && e.after.dirName == ""
       case Selected(s) =>
         && e.after.button == 0
         && (e.after.canceled <==> !(0 <= s < |e.before.request.slots|))
         && e.after.dirName == (if e.after.canceled then "" else e.before.request.slots[s].dirName)
  }

  /** A completion works for the open it hits, or for one a whole number of rounds of the 64-bit
      counter earlier. */
  ghost predicate OwnOrWholeRoundsLater(e: Effect) {
    && (exists k: nat :: e.hit == e.workedFor + Rounds(k))
    && (e.hit == e.workedFor && !e.answer.Unshown? ==> e.before.request == e.asked)
  }

  predicate PumpRemembers(w: World) {
    match w.pump
    case ProgressFailed(g, e) => 0 < e <= w.epoch && g == Numbered(e)
    case Showing(t, e) => TicketStands(w, t, e)
    case Answered(t, e, _) => TicketStands(w, t, e)
    case _ => true
  }

  /** A ticket of the latest open is for the very request still running, and no other is offered. */
  predicate TicketStands(w: World, t: Ticket, e: nat) {
    && t.Ticket? && 0 < e <= w.epoch && t.generation == Numbered(e)
    && (e == w.epoch ==> t.request == w.dialog.request && w.dialog.status.Running? && w.dialog.pending == 0)
  }

  ghost predicate Inv(w: World) {
    && w.dialog.generation == Numbered(w.epoch)
    && (w.dialog.pending != 0 ==> w.dialog.pending == w.dialog.generation)
    && (w.dialog.status.Running? ==> w.epoch > 0 && w.dialog.dirName == "")
    && PumpHasTicket(w.pump)
    && PumpRemembers(w)
    && Increasing(w.issued)
    && (forall i :: 0 <= i < |w.issued| ==> 0 < w.issued[i] <= w.epoch && (w.dialog.pending != 0 ==> w.issued[i] < w.epoch))
    && HitsIncrease(w.effects)
    && (forall i :: 0 <= i < |w.effects| ==>
          && w.effects[i].hit <= w.epoch && (w.dialog.status.Running? ==> w.effects[i].hit < w.epoch)
          && Records(w.effects[i]) && OwnOrWholeRoundsLater(w.effects[i]))
  }

  lemma EffectIsSound(w: World, asked: Request, after: Dialog, answer: Answer)
    requires Inv(w) && (w.pump.ProgressFailed? || w.pump.Answered?)
    requires after == w.dialog || (w.pump.epoch > 0 && Numbered(w.pump.epoch) == w.dialog.generation)
    requires w.pump.epoch == w.epoch && !answer.Unshown? ==> asked == w.dialog.request
    requires var e := Effect(w.pump.epoch, asked, w.epoch, w.dialog, after, answer);
             after != w.dialog ==> Records(e) && after == w.dialog.(button := after.button, canceled := after.canceled, dirName := after.dirName, status := after.status)
    ensures Inv(w.(dialog := after, pump := BeforeTake, effects := Logged(w, asked, after, answer)))
    ensures Inv(w.(dialog := after, pump := Start, effects := Logged(w, asked, after, answer)))
  {
    if after != w.dialog {
      SameNumber(w.pump.epoch, w.epoch);
      assert OwnOrWholeRoundsLater(Effect(w.pump.epoch, asked, w.epoch, w.dialog, after, answer));
    }
  }

  lemma NextKeepsInv(w: World, e: Event)
    requires Inv(w) && Enabled(w, e)
    ensures Inv(Next(w, e))
  {
    match e
    case Fail => EffectIsSound(w, w.dialog.request, FinishProgress(w.dialog, w.pump.generation), Unshown);
    case Deliver =>
      var t := w.pump.ticket;
      EffectIsSound(w, t.request, Delivered(w.dialog, t, w.pump.answer),
                    if t.request.slotList then Selected(w.pump.answer) else Clicked(w.pump.answer));
    case _ =>
  }

  // --- every run -----------------------------------------------------------------------------------

  function FreshWorld(): World {
    World(Fresh(), 0, Start, [], [])
  }

  ghost predicate Run(w: World, events: seq<Event>)
    decreases |events|
  {
    events == [] || (Enabled(w, events[0]) && PumpHasTicket(w.pump) && Run(Next(w, events[0]), events[1..]))
  }

  ghost function After(w: World, events: seq<Event>): World
    requires Run(w, events)
    decreases |events|
  {
    if events == [] then w else After(Next(w, events[0]), events[1..])
  }

  lemma {:induction false} RunKeepsInv(w: World, events: seq<Event>)
    requires Inv(w) && Run(w, events)
    ensures Inv(After(w, events))
    decreases |events|
  {
    if events != [] {
      NextKeepsInv(w, events[0]);
      RunKeepsInv(Next(w, events[0]), events[1..]);
    }
  }

  lemma OwnUnlessWrapped(e: Effect)
    requires OwnOrWholeRoundsLater(e) && e.hit - e.workedFor < GENERATIONS
    ensures e.hit == e.workedFor
  {
    var k: nat :| e.hit == e.workedFor + Rounds(k);
  }

  /** Every interleaving of guest calls with the pump: no open is issued two tickets; no open is
      finished twice; every completion records exactly what was answered; and unless the guest opened or
      closed 2^64 - 1 times while one modal was up, it completes the very request it was answered for. */
  lemma EveryInterleavingIsSafe(events: seq<Event>)
    requires Run(FreshWorld(), events)
    ensures var w := After(FreshWorld(), events);
            && Increasing(w.issued)
            && HitsIncrease(w.effects)
            && (forall i :: 0 <= i < |w.effects| ==>
                  var e := w.effects[i];
                  && Records(e)
                  && (e.hit - e.workedFor < GENERATIONS ==>
                        e.hit == e.workedFor && (!e.answer.Unshown? ==> e.before.request == e.asked)))
  {
    RunKeepsInv(FreshWorld(), events);
    var w := After(FreshWorld(), events);
    forall i | 0 <= i < |w.effects| && w.effects[i].hit - w.effects[i].workedFor < GENERATIONS
      ensures w.effects[i].hit == w.effects[i].workedFor
    {
      OwnUnlessWrapped(w.effects[i]);
    }
  }

  /** An answer for a request that was closed or replaced changes no field; one for the request still
      open always finishes it. */
  lemma DeliveryHitsOnlyItsOwn(w: World)
    requires Inv(w) && w.pump.Answered?
    ensures (forall k: nat :: w.epoch != w.pump.epoch + Rounds(k)) ==> Next(w, Deliver).dialog == w.dialog
    ensures w.pump.epoch == w.epoch ==>
              var d := Next(w, Deliver).dialog;
              && d.status.Finished?
              && Records(Effect(w.epoch, w.dialog.request, w.epoch, w.dialog, d,
                                if w.dialog.request.slotList then Selected(w.pump.answer) else Clicked(w.pump.answer)))
  {
    SameNumber(w.pump.epoch, w.epoch);
  }

  function Reopened(w: World, request: Request, times: nat): (v: World)
    ensures v.pump == w.pump
  {
    if times == 0 then w else
      var v := Reopened(w, request, times - 1);
      v.(dialog := Open(v.dialog, request), epoch := v.epoch + 1)
  }

  lemma {:induction false} ReopenedIsRun(w: World, request: Request, times: nat)
    requires w.dialog.generation == Numbered(w.epoch)
    ensures var v := Reopened(w, request, times);
            && v.epoch == w.epoch + times && v.dialog.generation == Numbered(v.epoch)
            && v == w.(dialog := v.dialog, epoch := v.epoch)
            && (times > 0 ==> v == Next(Reopened(w, request, times - 1).(pump := Start), GuestOpen(request)).(pump := w.pump))
            && (times > 0 ==> v.dialog.status.Running? && v.dialog.request == request)
  {
    if times > 0 {
      ReopenedIsRun(w, request, times - 1);
    }
  }

  lemma RunOfOne(w: World, e: Event)
    requires Enabled(w, e) && PumpHasTicket(w.pump)
    ensures Run(w, [e]) && After(w, [e]) == Next(w, e)
  {
    assert [e][1..] == [];
  }

  lemma RunExtends(w: World, e: Event, events: seq<Event>)
    requires Enabled(w, e) && PumpHasTicket(w.pump) && Run(Next(w, e), events)
    ensures Run(w, [e] + events) && After(w, [e] + events) == After(Next(w, e), events)
  {
    assert ([e] + events)[1..] == events;
  }

  /** The first request answered, its answer not yet delivered. */
  lemma AnsweredRun(asked: Request) returns (shown: World)
    requires !asked.slotList && !asked.progress
    ensures Run(FreshWorld(), [GuestOpen(asked), Draw(false), Take, Answer(1)])
    ensures shown == After(FreshWorld(), [GuestOpen(asked), Draw(false), Take, Answer(1)])
    ensures shown.pump == Answered(Ticket(1, asked), 1, 1) && shown.epoch == 1 && shown.dialog.generation == 1
  {
    var w1 := Next(FreshWorld(), GuestOpen(asked));
    var w2 := Next(w1, Draw(false));
    var w3 := Next(w2, Take);
    shown := Next(w3, Answer(1));
    hide Run, After, Next;
    RunOfOne(w3, Answer(1));
    RunExtends(w2, Take, [Answer(1)]);
    assert [Take] + [Answer(1)] == [Take, Answer(1)];
    RunExtends(w1, Draw(false), [Take, Answer(1)]);
    assert [Draw(false)] + [Take, Answer(1)] == [Draw(false), Take, Answer(1)];
    RunExtends(FreshWorld(), GuestOpen(asked), [Draw(false), Take, Answer(1)]);
    assert [GuestOpen(asked)] + [Draw(false), Take, Answer(1)] == [GuestOpen(asked), Draw(false), Take, Answer(1)];
  }

  /** The bound is exact: after one whole round of opens the answer to the first request finishes the
      last one. */
  lemma WrappedTicketCrosses(asked: Request, other: Request) returns (shown: World)
    requires !asked.slotList && !asked.progress && asked != other
    ensures Run(FreshWorld(), [GuestOpen(asked), Draw(false), Take, Answer(1)])
    ensures shown == After(FreshWorld(), [GuestOpen(asked), Draw(false), Take, Answer(1)])
    ensures shown.pump == Answered(Ticket(1, asked), 1, 1)
    ensures var replaced := Reopened(shown, other, GENERATIONS);
            && Next(replaced, Deliver).dialog.status.Finished?
            && Next(replaced, Deliver).dialog.request == other
            && Next(replaced, Deliver).dialog.button == 1
  {
    shown := AnsweredRun(asked);
    hide Run, After;
    assert Numbered(1) == 1;
    ReopenedIsRun(shown, other, GENERATIONS);
    assert Rounds(1) == GENERATIONS;
    SameNumber(1, 1 + GENERATIONS);
  }

  // --- the pump's calls are runs -------------------------------------------------------------------

  function Drawn(d: Dialog, fails: bool): Dialog {
    if fails && ProgressShown(d) != 0 then FinishProgress(d, ProgressShown(d)) else d
  }

  function Ended(d: Dialog, t: Ticket, answer: int): Dialog
    requires t.Ticket?
  {
    if answer == INVALIDATED then d else Delivered(d, t, answer)
  }

  function BeginEvents(d: Dialog, fails: bool): seq<Event> {
    if fails && ProgressShown(d) != 0 then [Draw(fails), Fail, Take] else [Draw(fails), Take]
  }

  function EndEvents(answer: int): seq<Event> {
    if answer == INVALIDATED then [Answer(answer)] else [Answer(answer), Deliver]
  }

  lemma RunOfTwo(w: World, e1: Event, e2: Event)
    requires PumpHasTicket(w.pump) && Enabled(w, e1)
    requires PumpHasTicket(Next(w, e1).pump) && Enabled(Next(w, e1), e2)
    ensures Run(w, [e1, e2]) && After(w, [e1, e2]) == Next(Next(w, e1), e2)
  {
    RunOfOne(Next(w, e1), e2);
    RunExtends(w, e1, [e2]);
    assert [e1] + [e2] == [e1, e2];
  }

  /** Drawing and taking without interruption: the ticket now shown is the one the dialog offered. */
  lemma BeginIsRun(w: World, fails: bool)
    requires Inv(w) && w.pump.Start?
    ensures var events := BeginEvents(w.dialog, fails);
            var drawn := Drawn(w.dialog, fails);
            && Run(w, events)
            && After(w, events).dialog == AfterTake(drawn)
            && After(w, events).pump == (if Taken(drawn).Ticket? then Showing(Taken(drawn), w.epoch) else Start)
  {
    var w1 := Next(w, Draw(fails));
    if fails && ProgressShown(w.dialog) != 0 {
      NextKeepsInv(w, Draw(fails));
      RunOfTwo(w1, Fail, Take);
      RunExtends(w, Draw(fails), [Fail, Take]);
      assert [Draw(fails)] + [Fail, Take] == [Draw(fails), Fail, Take];
    } else {
      RunOfTwo(w, Draw(fails), Take);
    }
  }

  /** The modal's end: its last look decides whether anything is delivered at all. */
  lemma EndIsRun(w: World, answer: int)
    requires Inv(w) && w.pump.Showing?
    requires answer == INVALIDATED <==> !Active(w.dialog, w.pump.ticket.generation)
    ensures Run(w, EndEvents(answer))
    ensures After(w, EndEvents(answer)).dialog == Ended(w.dialog, w.pump.ticket, answer)
    ensures After(w, EndEvents(answer)).pump == Start
  {
    if answer == INVALIDATED {
      RunOfOne(w, Answer(answer));
    } else {
      RunOfTwo(w, Answer(answer), Deliver);
    }
  }

  // --- the progress bar ----------------------------------------------------------------------------

  function Sum(deltas: seq<nat>): nat {
    if deltas == [] then 0 else Sum(deltas[..|deltas| - 1]) + deltas[|deltas| - 1]
  }

  function Incremented(d: Dialog, deltas: seq<nat>): Dialog {
    if deltas == [] then d
    else ProgressInc(Incremented(d, deltas[..|deltas| - 1]), 0, deltas[|deltas| - 1])
  }

  /** Increments add up and stick at the 32-bit maximum, in whatever portions they come. */
  lemma {:induction false} IncrementsSaturate(d: Dialog, deltas: seq<nat>)
    requires d.status.Running? && d.request.progress && d.progress <= UINT32_MAX
    ensures Incremented(d, deltas)
         == d.(progress := if d.progress + Sum(deltas) > UINT32_MAX then UINT32_MAX else d.progress + Sum(deltas))
  {
    if deltas != [] {
      IncrementsSaturate(d, deltas[..|deltas| - 1]);
    }
  }

  // --- a request is served -------------------------------------------------------------------------

  /** A list or a message is offered under the number in force; a progress bar needs no ticket. */
  lemma OpenIsOffered(d: Dialog, request: Request)
    ensures var o := Open(d, request);
            && o.request == request && o.status.Running? && o.generation != d.generation
            && Taken(o) == (if request.progress then NoTicket else Ticket(o.generation, request))
            && ProgressShown(o) == (if request.progress then o.generation else 0)
            && Active(o, o.generation)
  {
  }

  /** The request of open `epoch` still waits for its ticket. */
  predicate Offered(w: World, request: Request, epoch: nat) {
    && w.epoch == epoch && w.dialog.request == request && w.dialog.status.Running?
    && w.dialog.pending != 0 && w.dialog.pending == w.dialog.generation
  }

  /** Whatever the pump still works for is not a whole round of numbers older. */
  predicate NotWrapped(w: World) {
    match w.pump
    case ProgressFailed(_, e) => w.epoch - e < GENERATIONS
    case Showing(_, e) => w.epoch - e < GENERATIONS
    case Answered(_, e, _) => w.epoch - e < GENERATIONS
    case _ => true
  }

  predicate Undisturbing(e: Event) {
    !e.GuestOpen? && !e.GuestClose? && !e.Take?
  }

  lemma OfferStands(w: World, e: Event, request: Request, epoch: nat)
    requires Inv(w) && Enabled(w, e) && Undisturbing(e) && NotWrapped(w)
    requires Offered(w, request, epoch) && !request.progress
    requires w.pump.Answered? || w.pump.Showing? ==> w.pump.epoch < epoch
    ensures Offered(Next(w, e), request, epoch) && NotWrapped(Next(w, e))
    ensures var p := Next(w, e).pump; p.Answered? || p.Showing? ==> p.epoch < epoch
  {
    if w.pump.Answered? {
      SameNumber(w.pump.epoch, w.epoch);
    }
  }

  ghost predicate UndisturbedRun(w: World, events: seq<Event>)
    decreases |events|
  {
    events == [] ||
    (Enabled(w, events[0]) && PumpHasTicket(w.pump) && Undisturbing(events[0]) && UndisturbedRun(Next(w, events[0]), events[1..]))
  }

  ghost function AfterUndisturbed(w: World, events: seq<Event>): World
    requires UndisturbedRun(w, events)
    decreases |events|
  {
    if events == [] then w else AfterUndisturbed(Next(w, events[0]), events[1..])
  }

  lemma {:induction false} OfferStandsOverRun(w: World, events: seq<Event>, request: Request, epoch: nat)
    requires Inv(w) && UndisturbedRun(w, events) && NotWrapped(w) && Offered(w, request, epoch) && !request.progress
    requires w.pump.Answered? || w.pump.Showing? ==> w.pump.epoch < epoch
    ensures var v := AfterUndisturbed(w, events); Inv(v) && Offered(v, request, epoch)
    decreases |events|
  {
    if events != [] {
      NextKeepsInv(w, events[0]);
      OfferStands(w, events[0], request, epoch);
      hide Inv, Offered, Next;
      OfferStandsOverRun(Next(w, events[0]), events[1..], request, epoch);
    }
  }

  /** A list or message that is opened and neither closed nor replaced before the pump's next take is
      issued a ticket for that very request, whatever answer an older modal still delivers meanwhile. */
  lemma OpenedRequestGetsTicket(w: World, request: Request, events: seq<Event>)
    requires Inv(w) && !request.progress && NotWrapped(w.(epoch := w.epoch + 1))
    requires UndisturbedRun(Next(w, GuestOpen(request)), events)
    requires AfterUndisturbed(Next(w, GuestOpen(request)), events).pump.BeforeTake?
    ensures var v := AfterUndisturbed(Next(w, GuestOpen(request)), events);
            && Enabled(v, Take)
            && Next(v, Take).pump == Showing(Ticket(v.dialog.generation, request), w.epoch + 1)
            && Next(v, Take).issued == v.issued + [w.epoch + 1]
  {
    var begun := Next(w, GuestOpen(request));
    NextKeepsInv(w, GuestOpen(request));
    OpenIsOffered(w.dialog, request);
    assert Offered(begun, request, w.epoch + 1) && NotWrapped(begun);
    hide Inv;
    OfferStandsOverRun(begun, events, request, w.epoch + 1);
  }

  /** One pump that no guest call interrupts serves it to the end: the modal comes up for that request, and
      its answer finishes it and is what the guest will read. */
  lemma OpenedRequestIsServed(w: World, request: Request, drawFails: bool, answer: int)
    requires Inv(w) && w.pump.Start? && !request.progress && answer != INVALIDATED
    ensures var begun := Next(w, GuestOpen(request));
            && Run(begun, BeginEvents(begun.dialog, drawFails))
            && var shown := After(begun, BeginEvents(begun.dialog, drawFails));
               && shown.pump == Showing(Ticket(begun.dialog.generation, request), w.epoch + 1)
               && Run(shown, EndEvents(answer))
               && var d := After(shown, EndEvents(answer)).dialog;
                  && d.status.Finished? && d.request == request
                  && (request.slotList ==>
                        && d.canceled == !(0 <= answer < |request.slots|) && d.button == 0
                        && d.dirName == (if 0 <= answer < |request.slots| then request.slots[answer].dirName else ""))
                  && (!request.slotList ==> d.canceled == (answer <= 0) && d.button == (if answer > 0 then answer else 0))
  {
    var begun := Next(w, GuestOpen(request));
    NextKeepsInv(w, GuestOpen(request));
    OpenIsOffered(w.dialog, request);
    BeginIsRun(begun, drawFails);
    var shown := After(begun, BeginEvents(begun.dialog, drawFails));
    BeginKeepsInv(begun, drawFails);
    assert shown.dialog == AfterTake(begun.dialog);
    assert Active(shown.dialog, begun.dialog.generation);
    hide Inv, Run, After, Next;
    EndIsRun(shown, answer);
  }

  lemma BeginKeepsInv(w: World, fails: bool)
    requires Inv(w) && Run(w, BeginEvents(w.dialog, fails))
    ensures Inv(After(w, BeginEvents(w.dialog, fails)))
  {
    RunKeepsInv(w, BeginEvents(w.dialog, fails));
  }

  /** A progress bar gets no ticket; when its window cannot be shown the pump finishes it neutrally. */
  lemma OpenedProgressIsDrawn(w: World, request: Request)
    requires Inv(w) && w.pump.Start? && request.progress
    ensures var begun := Next(w, GuestOpen(request));
            && ProgressShown(begun.dialog) == begun.dialog.generation != 0
            && Run(begun, BeginEvents(begun.dialog, false))
            && After(begun, BeginEvents(begun.dialog, false)).pump == Start
            && After(begun, BeginEvents(begun.dialog, false)).dialog.status.Running?
            && Run(begun, BeginEvents(begun.dialog, true))
            && var d := After(begun, BeginEvents(begun.dialog, true)).dialog;
               d.status.Finished? && !d.canceled && d.button == 0
  {
    NextKeepsInv(w, GuestOpen(request));
    var begun := Next(w, GuestOpen(request));
    BeginIsRun(begun, false);
    BeginIsRun(begun, true);
  }

  /** After a close nothing is offered, shown or active. */
  lemma ClosedShowsNothing(d: Dialog, generation: nat)
    ensures var c := Close(d);
            c.status.NotOpen? && Taken(c) == NoTicket && ProgressShown(c) == 0 && !Active(c, generation) && c.generation != d.generation
  {
  }

  /** The bar counts from zero at its open, and from the value last set; other targets and other kinds of
      request leave it alone. */
  lemma ProgressCounts(d: Dialog, request: Request, value: nat, deltas: seq<nat>)
    requires request.progress && value <= UINT32_MAX
    ensures Incremented(Open(d, request), deltas).progress == (if Sum(deltas) > 0xFFFF_FFFF then 0xFFFF_FFFF else Sum(deltas))
    ensures Incremented(ProgressSet(Open(d, request), 0, value), deltas).progress
         == (if value + Sum(deltas) > 0xFFFF_FFFF then 0xFFFF_FFFF else value + Sum(deltas))
    ensures forall target: nat :: target != 0 ==> ProgressSet(d, target, value) == d && ProgressInc(d, target, value) == d
    ensures !d.request.progress || !d.status.Running? ==> ProgressSet(d, 0, value) == d && ProgressInc(d, 0, value) == d
  {
    IncrementsSaturate(Open(d, request), deltas);
    IncrementsSaturate(ProgressSet(Open(d, request), 0, value), deltas);
  }
}
