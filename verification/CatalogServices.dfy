/** The event and ticket-category services: guarded updates of the lifecycle, and edits allowed only in drafts. */
module CatalogServices {
  import opened Tables
  import opened Booking
  import opened OrderServices
  import opened FrozenInventory
  import opened BookingEffects

  class EventService {
    const store: Store

    constructor (store: Store)
      ensures this.store == store
    {
      this.store := store;
    }

    /** `filter(id, user_id, state in from).update(state=to)`: whether a row matched. */
    method MoveState(id: nat, owner: Option<nat>, from: set<EventState>, to: EventState) returns (matched: bool)
      modifies store`events
      ensures matched <==> id in old(store.events) && (owner.Some? ==> old(store.events)[id].userId == owner.value)
                           && old(store.events)[id].state in from
      ensures store.events == if matched then old(store.events)[id := old(store.events)[id].(state := to)] else old(store.events)
    {
      matched := id in store.events && (owner.Some? ==> store.events[id].userId == owner.value) && store.events[id].state in from;
      if matched {
        store.events := store.events[id := store.events[id].(state := to)];
      }
    }

    /** After an update that matched nothing: the event is missing, already there, or in a wrong state. */
    method Explain(id: nat, owner: Option<nat>, to: EventState) returns (reply: Outcome<bool>)
      ensures reply == if id !in store.events || (owner.Some? && store.events[id].userId != owner.value) then Failed(ObjectNotFound)
                       else if store.events[id].state == to then Done(true) else Failed(WrongState)
    {
      if id !in store.events || (owner.Some? && store.events[id].userId != owner.value) { return Failed(ObjectNotFound); }
      if store.events[id].state == to { return Done(true); }
      return Failed(WrongState);
    }

    method Publish(userId: nat, id: nat) returns (reply: Outcome<bool>)
      modifies store`events
      ensures (store.State(), reply) == MoveEvent(old(store.State()), id, Some(userId), {Draft}, OnModeration)
      ensures MoveEffect(old(store.State()), store.State(), reply, id, Some(userId), {Draft}, OnModeration)
      ensures KeepsSettled(old(store.State()), store.State())
      ensures store.State() == Administer(old(store.State()), Booking.Publish(id, userId))
    {
      MoveHasEffect(store.State(), id, Some(userId), {Draft}, OnModeration);
      AdminKeepsSettled(store.State(), Booking.Publish(id, userId));
      var matched := MoveState(id, Some(userId), {Draft}, OnModeration);
      if !matched {
        reply := Explain(id, Some(userId), OnModeration);
        return;
      }
      reply := Done(true);
    }

    method Cancel(userId: nat, id: nat) returns (reply: Outcome<bool>)
      modifies store`events
      ensures (store.State(), reply) == MoveEvent(old(store.State()), id, Some(userId), {Draft, OnModeration}, EventCancelled)
      ensures MoveEffect(old(store.State()), store.State(), reply, id, Some(userId), {Draft, OnModeration}, EventCancelled)
      ensures KeepsSettled(old(store.State()), store.State())
      ensures store.State() == Administer(old(store.State()), CancelEvent(id, userId))
    {
      MoveHasEffect(store.State(), id, Some(userId), {Draft, OnModeration}, EventCancelled);
      AdminKeepsSettled(store.State(), CancelEvent(id, userId));
      var matched := MoveState(id, Some(userId), {Draft, OnModeration}, EventCancelled);
      if !matched {
        reply := Explain(id, Some(userId), EventCancelled);
        return;
      }
      reply := Done(true);
    }

    method Moderate(id: nat, approve: bool) returns (reply: Outcome<bool>)
      modifies store`events
      ensures (store.State(), reply) ==
              MoveEvent(old(store.State()), id, None, {OnModeration}, if approve then Approved else Rejected)
      ensures MoveEffect(old(store.State()), store.State(), reply, id, None, {OnModeration}, if approve then Approved else Rejected)
      ensures KeepsSettled(old(store.State()), store.State())
      ensures store.State() == Administer(old(store.State()), Booking.Moderate(id, approve))
    {
      MoveHasEffect(store.State(), id, None, {OnModeration}, if approve then Approved else Rejected);
      AdminKeepsSettled(store.State(), Booking.Moderate(id, approve));
      var target := if approve then Approved else Rejected;
      var matched := MoveState(id, None, {OnModeration}, target);
      if !matched {
        reply := Explain(id, None, target);
        return;
      }
      reply := Done(true);
    }

    method Update(userId: nat, id: nat, changes: map<string, string>) returns (reply: Outcome<bool>)
      modifies store`events
      ensures (store.State(), reply) == UpdateEvent(old(store.State()), id, userId, changes)
      ensures EditEffect(old(store.State()), store.State(), reply, id, userId, changes)
      ensures KeepsSettled(old(store.State()), store.State())
      ensures store.State() == Administer(old(store.State()), EditEvent(id, userId, changes))
    {
      EditHasEffect(store.State(), id, userId, changes);
      AdminKeepsSettled(store.State(), EditEvent(id, userId, changes));
      if id in store.events && store.events[id].userId == userId && store.events[id].state == Draft {
        store.events := store.events[id := store.events[id].(details := store.events[id].details + changes)];
        return Done(true);
      }
      if id !in store.events || store.events[id].userId != userId { return Failed(ObjectNotFound); }
      reply := Failed(WrongState);
    }
  }

  class TicketCategoryService {
    const store: Store

    constructor (store: Store)
      ensures this.store == store
    {
      this.store := store;
    }

    /** The checks every edit of a category starts with. */
    method ValidateModification(userId: nat, id: nat) returns (reply: Outcome<Category>)
      ensures reply == if id !in store.categories then Failed(ObjectNotFound)
                       else if OwnDraft(store.State(), store.categories[id].eventId, userId) then Done(store.categories[id])
                       else Failed(DraftFailure(store.State(), store.categories[id].eventId, userId))
    {
      if id !in store.categories { return Failed(ObjectNotFound); }
      var event := store.categories[id].eventId;
      if event !in store.events || store.events[event].userId != userId { return Failed(ObjectNotFound); }
      if store.events[event].state != Draft { return Failed(WrongState); }
      reply := Done(store.categories[id]);
    }

    method Create(userId: nat, id: nat, row: Category) returns (reply: Outcome<nat>)
      modifies store`categories
      ensures (store.State(), reply) == CreateCategory(old(store.State()), id, userId, row)
      ensures AddEffect(old(store.State()), store.State(), reply, id, userId, row)
      ensures KeepsSettled(old(store.State()), store.State())
      ensures store.State() == Administer(old(store.State()), AddCategory(id, userId, row))
    {
      AddHasEffect(store.State(), id, userId, row);
      AdminKeepsSettled(store.State(), AddCategory(id, userId, row));
      if row.eventId !in store.events || store.events[row.eventId].userId != userId { return Failed(ObjectNotFound); }
      if store.events[row.eventId].state != Draft { return Failed(WrongState); }
      if id in store.categories || !Storable(store.categories, id, row) { return Failed(ConstraintViolated); }
      store.categories := store.categories[id := row];
      reply := Done(id);
    }

    method Update(userId: nat, id: nat, name: Option<string>, price: Option<Positive>, total: Option<Positive>)
      returns (reply: Outcome<bool>)
      modifies store`categories
      ensures (store.State(), reply) == UpdateCategory(old(store.State()), id, userId, name, price, total)
      ensures PatchEffect(old(store.State()), store.State(), reply, id, userId, name, price, total)
      ensures KeepsSettled(old(store.State()), store.State())
      ensures store.State() == Administer(old(store.State()), EditCategory(id, userId, name, price, total))
    {
      PatchHasEffect(store.State(), id, userId, name, price, total);
      CategoryEditKeepsSettled(store.State(), id, userId, name, price, total);
      var checked := ValidateModification(userId, id);
      if checked.Failed? { return Failed(checked.error); }
      var row := Patched(store.categories[id], name, price, total);
      if !Storable(store.categories, id, row) { return Failed(ConstraintViolated); }
      store.categories := store.categories[id := row];
      reply := Done(true);
    }

    method Delete(userId: nat, id: nat) returns (reply: Outcome<bool>)
      modifies store`categories
      ensures (store.State(), reply) == DeleteCategory(old(store.State()), id, userId)
      ensures DropEffect(old(store.State()), store.State(), reply, id, userId)
      ensures KeepsSettled(old(store.State()), store.State())
      ensures store.State() == Administer(old(store.State()), DropCategory(id, userId))
    {
      DropHasEffect(store.State(), id, userId);
      AdminKeepsSettled(store.State(), DropCategory(id, userId));
      var checked := ValidateModification(userId, id);
      if checked.Failed? { return Failed(checked.error); }
      if Referenced(store.State(), id) { return Failed(ConstraintViolated); }
      store.categories := store.categories - {id};
      reply := Done(true);
    }
  }
}
