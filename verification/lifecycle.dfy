/**
  The whole life of the store: chat messages, the ordinal cancel of
  commandHandlers.js and the admin endpoints all act on the same bookings
  file. Whatever order they arrive in, no cabin is ever held twice for
  overlapping times and every dialogue state stays reachable.
*/
module Lifecycle {
  import opened Options
  import opened Seqs
  import opened Utils
  import opened Storage
  import opened Availability
  import opened Wizard
  import opened Commands
  import opened Admin
  import opened Bot

  /** One thing that can happen to the bot's state. */
  datatype Event =
    | Message(env: Env, text: string)
    | OrdinalCancel(phone: string, text: string)
    | AdminCreate(id: string, now: int, req: PostRequest)
    | AdminDelete(id: string, phone: string)

  function Apply(cfg: Config, st: State, e: Event): (r: State)
    requires AllValid(cfg, st.sessions)
    ensures AllValid(cfg, r.sessions)
    ensures NoOverlap(st.store) ==> NoOverlap(r.store)
    ensures !e.Message? ==> r.sessions == st.sessions
  {
    match e
    case Message(env, text) => Route(cfg, env, st, text).0
    case OrdinalCancel(phone, text) =>
      var kept := CancelByOrdinal(st.store, text, phone).0;
      CancelByOrdinalOnlyRemoves(st.store, text, phone);
      CancelKeepsNoOverlap(st.store, kept);
      State(st.sessions, kept)
    case AdminCreate(id, now, req) => State(st.sessions, Post(cfg, id, now, st.store, req).0)
    case AdminDelete(id, phone) => State(st.sessions, Delete(st.store, id, phone).0)
  }

  /**
    The state after a sequence of events, in order. Every dialogue state
    stays reachable, and only chat messages touch the dialogue states.
  */
  function Run(cfg: Config, st: State, es: seq<Event>): (r: State)
    requires AllValid(cfg, st.sessions)
    ensures AllValid(cfg, r.sessions)
    ensures (forall i :: 0 <= i < |es| ==> !es[i].Message?) ==> r.sessions == st.sessions
    decreases |es|
  {
    if es == [] then st
    else
      assert forall i :: 0 <= i < |es[1..]| ==> es[1..][i] == es[i + 1];
      Run(cfg, Apply(cfg, st, es[0]), es[1..])
  }

  /** The store invariant and the dialogue invariant hold after any sequence of events. */
  lemma {:induction false} RunKeepsInvariants(cfg: Config, st: State, es: seq<Event>)
    requires AllValid(cfg, st.sessions) && NoOverlap(st.store)
    ensures AllValid(cfg, Run(cfg, st, es).sessions)
    ensures NoOverlap(Run(cfg, st, es).store)
    decreases |es|
  {
    if es != [] {
      RunKeepsInvariants(cfg, Apply(cfg, st, es[0]), es[1..]);
    }
  }

  /** Running two sequences one after the other is running their concatenation. */
  lemma {:induction false} RunAppend(cfg: Config, st: State, a: seq<Event>, b: seq<Event>)
    requires AllValid(cfg, st.sessions)
    ensures AllValid(cfg, Run(cfg, st, a).sessions)
    ensures Run(cfg, st, a + b) == Run(cfg, Run(cfg, st, a), b)
    decreases |a|
  {
    if a == [] {
      AppendEmpty(b);
    } else {
      assert (a + b)[0] == a[0];
      assert (a + b)[1..] == a[1..] + b;
      RunAppend(cfg, Apply(cfg, st, a[0]), a[1..], b);
    }
  }
}
