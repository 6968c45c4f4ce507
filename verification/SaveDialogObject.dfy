/** dialog_helpers.cpp's SaveDataDialogState in its own form; every method body is one critical section,
    and takes the step of the value model. */
module SaveDialogObject {
  import opened SaveDialog

  class SaveDataDialogState {
    var request: Request
    var status: Status
    var button: nat
    var progress: nat
    var canceled: bool
    var dirName: string
    var generation: nat
    var pending: nat

    constructor ()
      ensures View() == SaveDialog.Fresh()
    {
      request, status := Request(false, false, []), NotOpen;
      button, progress, canceled, dirName := 0, 0, false, "";
      generation, pending := 0, 0;
    }

    function View(): Dialog
      reads this
    {
      Dialog(request, status, button, progress, canceled, dirName, generation, pending)
    }

    method NextGeneration()
      modifies this`generation
      ensures generation == Bumped(old(generation))
    {
      generation := if generation == GENERATIONS then 0 else generation + 1;
      if generation == 0 {
        generation := generation + 1;
      }
    }

    method Open(newRequest: Request)
      modifies this
      ensures View() == SaveDialog.Open(old(View()), newRequest)
    {
      NextGeneration();
      request := newRequest;
      button, progress, canceled, dirName := 0, 0, false, "";
      status := Running;
      pending := if request.progress then 0 else generation;
    }

    method Close()
      modifies this`generation, this`pending, this`status
      ensures View() == SaveDialog.Close(old(View()))
    {
      NextGeneration();
      pending := 0;
      status := NotOpen;
    }

    method TakePending() returns (ticket: Ticket)
      modifies this`pending
      ensures ticket == Taken(old(View())) && View() == AfterTake(old(View()))
    {
      var offered := pending;
      pending := 0;
      if offered == 0 || offered != generation || !status.Running? {
        return NoTicket;
      }
      return Ticket(offered, request);
    }

    method IsActive(ticket: nat) returns (active: bool)
      ensures active == Active(View(), ticket)
    {
      active := ticket != 0 && generation == ticket && status.Running?;
    }

    method Complete(ticket: nat, clicked: int)
      modifies this`canceled, this`button, this`status
      ensures View() == SaveDialog.Complete(old(View()), ticket, clicked)
    {
      if ticket == 0 || generation != ticket || !status.Running? {
        return;
      }
      canceled := clicked <= 0;
      button := if canceled then 0 else clicked;
      status := Finished;
    }

    method CompleteList(ticket: nat, selected: int)
      modifies this`dirName, this`canceled, this`button, this`status
      ensures View() == SaveDialog.CompleteList(old(View()), ticket, selected)
    {
      if !status.Running? || ticket != generation || !request.slotList {
        return;
      }
      if 0 <= selected < |request.slots| {
        dirName, canceled := request.slots[selected].dirName, false;
      } else {
        dirName, canceled := "", true;
      }
      button := 0;
      status := Finished;
    }

    method ProgressInc(target: nat, delta: nat)
      requires progress <= UINT32_MAX && delta <= UINT32_MAX
      modifies this`progress
      ensures View() == SaveDialog.ProgressInc(old(View()), target, delta) && progress <= UINT32_MAX
    {
      if target != 0 || !status.Running? || !request.progress {
        return;
      }
      progress := if delta > UINT32_MAX - progress then UINT32_MAX else progress + delta;
    }

    method ProgressSet(target: nat, value: nat)
      modifies this`progress
      ensures View() == SaveDialog.ProgressSet(old(View()), target, value)
    {
      if target != 0 || !status.Running? || !request.progress {
        return;
      }
      progress := value;
    }

    method FinishProgress(ticket: nat)
      modifies this`button, this`canceled, this`status
      ensures View() == SaveDialog.FinishProgress(old(View()), ticket)
    {
      if ticket == 0 || generation != ticket || !status.Running? || !request.progress {
        return;
      }
      button, canceled := 0, false;
      status := Finished;
    }

    /** The pump up to its modal, for a frame in which no guest call falls between the drawing and the
        ticket. */
    method BeginPump(drawFails: bool) returns (issued: Ticket)
      modifies this
      ensures issued == Taken(Drawn(old(View()), drawFails)) && View() == AfterTake(Drawn(old(View()), drawFails))
    {
      var shown := if status.Running? && request.progress then generation else 0;
      if drawFails && shown != 0 {
        FinishProgress(shown);
      }
      issued := TakePending();
    }

    /** The pump after its modal, whatever the guest did meanwhile; an invalidated modal delivers nothing. */
    method EndPump(ticket: Ticket, answer: int)
      requires ticket.Ticket?
      modifies this
      ensures View() == Ended(old(View()), ticket, answer)
    {
      if answer != INVALIDATED {
        if ticket.request.slotList {
          CompleteList(ticket.generation, answer);
        } else {
          Complete(ticket.generation, answer);
        }
      }
    }
  }
}
