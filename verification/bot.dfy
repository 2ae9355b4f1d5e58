/**
  Model of the message router of index.js: commands are matched on the
  trimmed text first, then the caller's session step picks the minimal
  wizard handler. The whole bot state is the session map and the store.
*/
module Bot {
  import opened Options
  import opened Seqs
  import opened JsText
  import opened Utils
  import opened Schedule
  import opened Storage
  import opened Availability
  import opened Sessions
  import opened Replies
  import opened Wizard
  import opened Commands

  datatype State = State(sessions: SessionMap, store: Store)

  /** Every stored dialogue state is one the minimal wizard can reach. */
  predicate AllValid(cfg: Config, m: SessionMap) {
    forall u :: u in m ==> Valid(Minimal, cfg, m[u])
  }

  /** Only `user`'s entry may have changed or been added. */
  predicate OthersKept(before: SessionMap, after: SessionMap, user: string) {
    && after.Keys <= before.Keys + {user}
    && (forall u :: u in before ==> u in after)
    && (forall u :: u in before && u != user ==> after[u] == before[u])
  }

  /** The store either is unchanged or gained one record whose cabin was free for its interval. */
  predicate GrewByFreeBooking(before: Store, after: Store) {
    after == before
    || (|after| == |before| + 1 && after[..|before|] == before
        && IsCabinFree(after[|before|].cabin, Slot(after[|before|].start, after[|before|].end), before))
  }

  /** Writes a handler's outcome back: the new session, and the record it appends, if any. */
  function Commit(st: State, user: string, o: Outcome): (r: State)
    ensures r.sessions == st.sessions[user := o.session]
    ensures o.appended.None? ==> r.store == st.store
    ensures o.appended.Some? ==> r.store == st.store + [o.appended.value]
  {
    State(st.sessions[user := o.session], if o.appended.Some? then st.store + [o.appended.value] else st.store)
  }

  /** getSession keeps every stored state reachable and touches no other user. */
  lemma GetKeepsAllValid(cfg: Config, m: SessionMap, user: string)
    requires AllValid(cfg, m)
    ensures AllValid(cfg, GetSession(m, user).1)
    ensures OthersKept(m, GetSession(m, user).1, user)
  {
    FreshIsValid(Minimal, cfg);
  }

  /** Storing one reachable state for `user` keeps the map reachable and touches no other user. */
  lemma StoreKeepsAllValid(cfg: Config, m: SessionMap, user: string, s: Session)
    requires AllValid(cfg, m) && Valid(Minimal, cfg, s)
    ensures AllValid(cfg, m[user := s])
    ensures OthersKept(m, m[user := s], user)
  {
  }

  lemma OthersKeptTrans(a: SessionMap, b: SessionMap, c: SessionMap, user: string)
    requires OthersKept(a, b, user) && OthersKept(b, c, user)
    ensures OthersKept(a, c, user)
  {
  }

  /**
    The step dispatch of the minimal router: each wizard step goes to its
    handler, the confirm step to the handler as written, which books a slot
    even when it has already begun. The minimal wizard never stores
    CHOOSE_PEOPLE, and the router's fallback for it answers "not
    understood" without a change.
  */
  function MinimalStep(cfg: Config, env: Env, s: Session, t: string, store: Store): (o: Outcome)
    requires Valid(Minimal, cfg, s) && s.step != Idle
    ensures s.step == ChooseDate ==> o == HandleChooseDate(cfg, env, s, t, store)
    ensures s.step == ChooseSlot ==> o == HandleChooseSlot(cfg, s, t, store)
    ensures s.step == ChooseCabin ==> o == HandleChooseCabin(Minimal, s, t)
    ensures s.step == Confirm ==> o == HandleConfirm(Minimal, env, s, t, store)
    ensures Valid(Minimal, cfg, o.session)
    ensures o.appended.Some? ==> IsCabinFree(o.appended.value.cabin, Slot(o.appended.value.start, o.appended.value.end), store)
  {
    match s.step
    case ChooseDate =>
      ChooseDateKeepsValid(Minimal, cfg, env, s, t, store);
      HandleChooseDate(cfg, env, s, t, store)
    case ChooseSlot => HandleChooseSlot(cfg, s, t, store)
    case ChooseCabin =>
      ChooseCabinKeepsValid(Minimal, cfg, s, t);
      HandleChooseCabin(Minimal, s, t)
    case Confirm =>
      ConfirmKeepsValid(Minimal, cfg, env, s, t, store);
      HandleConfirm(Minimal, env, s, t, store)
    case ChoosePeople => Outcome(s, None, NotUnderstood)
  }

  /**
    Non-command text: the caller's session (created idle on first contact)
    picks the handler; an idle caller gets a greeting and stays idle.
  */
  function Dispatch(cfg: Config, env: Env, st: State, t: string): (r: (State, Reply))
    requires AllValid(cfg, st.sessions)
    ensures OthersKept(st.sessions, r.0.sessions, env.jid)
    ensures AllValid(cfg, r.0.sessions)
    ensures GrewByFreeBooking(st.store, r.0.store)
    ensures GetSession(st.sessions, env.jid).0.step == Idle ==>
              r.1 == Greeting && r.0 == State(GetSession(st.sessions, env.jid).1, st.store)
    ensures GetSession(st.sessions, env.jid).0.step != Idle ==>
              var (s, m) := GetSession(st.sessions, env.jid);
              var o := MinimalStep(cfg, env, s, t, st.store);
              r == (Commit(State(m, st.store), env.jid, o), o.reply)
  {
    var (s, m) := GetSession(st.sessions, env.jid);
    GetKeepsAllValid(cfg, st.sessions, env.jid);
    if s.step == Idle then (State(m, st.store), Greeting)
    else
      var o := MinimalStep(cfg, env, s, t, st.store);
      StoreKeepsAllValid(cfg, m, env.jid, o.session);
      OthersKeptTrans(st.sessions, m, m[env.jid := o.session], env.jid);
      AppendedGrows(st.store, o);
      (Commit(State(m, st.store), env.jid, o), o.reply)
  }

  lemma AppendedGrows(store: Store, o: Outcome)
    requires o.appended.Some? ==> IsCabinFree(o.appended.value.cabin, Slot(o.appended.value.start, o.appended.value.end), store)
    ensures GrewByFreeBooking(store, if o.appended.Some? then store + [o.appended.value] else store)
  {
    if o.appended.Some? {
      assert (store + [o.appended.value])[..|store|] == store;
    }
  }

  /** The "/book" command: the caller's dialogue restarts at the date step. */
  function BookCommand(cfg: Config, env: Env, st: State): (r: (State, Reply))
    requires AllValid(cfg, st.sessions)
    ensures r.0.store == st.store
    ensures OthersKept(st.sessions, r.0.sessions, env.jid) && env.jid in r.0.sessions
    ensures AllValid(cfg, r.0.sessions)
    ensures var s := r.0.sessions[env.jid];
            s.step == ChooseDate && s.date.None? && s.slot.None? && s.cabin.None?
    ensures r.1.DateMenu?
  {
    var (s, m) := GetSession(st.sessions, env.jid);
    GetKeepsAllValid(cfg, st.sessions, env.jid);
    var o := HandleBookStart(Minimal, cfg, env, s);
    StoreKeepsAllValid(cfg, m, env.jid, o.session);
    OthersKeptTrans(st.sessions, m, m[env.jid := o.session], env.jid);
    (Commit(State(m, st.store), env.jid, o), o.reply)
  }

  /** What the trimmed text asks for. */
  datatype Command = HelpCmd | ResetCmd | BookCmd | MyCmd | CancelCmd | Chat

  /** The command tests in their order; any text starting with "/cancel" is a cancel. */
  function Classify(t: string): (c: Command)
    ensures c == HelpCmd <==> t == "/help"
    ensures c == ResetCmd <==> t == "/reset"
    ensures c == BookCmd <==> t == "/book"
    ensures c == MyCmd <==> t == "/my"
    ensures c == CancelCmd <==> StartsWith(t, "/cancel")
  {
    if t == "/help" then HelpCmd
    else if t == "/reset" then ResetCmd
    else if t == "/book" then BookCmd
    else if t == "/my" then MyCmd
    else if StartsWith(t, "/cancel") then CancelCmd
    else Chat
  }

  /** The effect of a classified message. */
  function Perform(cfg: Config, env: Env, st: State, c: Command, t: string): (r: (State, Reply))
    requires AllValid(cfg, st.sessions)
    ensures c == HelpCmd ==> r == (st, Help)
    ensures c == ResetCmd ==> r == (State(ResetSession(st.sessions, env.jid), st.store), ResetDone)
    ensures c == BookCmd ==> r == BookCommand(cfg, env, st)
    ensures c == MyCmd ==> r == (st, HandleMy(st.store, ToPhone(env.jid)))
    ensures c == CancelCmd ==>
              var (kept, reply) := CancelById(st.store, t, ToPhone(env.jid));
              r == (State(st.sessions, kept), reply)
    ensures c == Chat ==> r == Dispatch(cfg, env, st, t)
    ensures AllValid(cfg, r.0.sessions)
    ensures OthersKept(st.sessions, r.0.sessions, env.jid)
    ensures NoOverlap(st.store) ==> NoOverlap(r.0.store)
  {
    match c
    case HelpCmd => (st, Help)
    case ResetCmd =>
      FreshIsValid(Minimal, cfg);
      StoreKeepsAllValid(cfg, st.sessions, env.jid, Fresh);
      (State(ResetSession(st.sessions, env.jid), st.store), ResetDone)
    case BookCmd => BookCommand(cfg, env, st)
    case MyCmd => (st, HandleMy(st.store, ToPhone(env.jid)))
    case CancelCmd =>
      var (kept, reply) := CancelById(st.store, t, ToPhone(env.jid));
      CancelKeepsNoOverlap(st.store, kept);
      (State(st.sessions, kept), reply)
    case Chat =>
      var (next, reply) := Dispatch(cfg, env, st, t);
      GrowthKeepsNoOverlap(st.store, next.store);
      (next, reply)
  }

  /**
    The message handler of index.js. An empty message is ignored. Otherwise
    the trimmed text is compared with "/help", "/reset", "/book" and "/my",
    then any text starting with "/cancel" cancels by id, and everything else
    goes to the caller's current step. Every dialogue state stays reachable,
    other users' sessions are untouched and the no-overlap rule is kept.
  */
  function Route(cfg: Config, env: Env, st: State, text: string): (r: (State, Option<Reply>))
    requires AllValid(cfg, st.sessions)
    ensures text == [] ==> r == (st, None)
    ensures text != [] ==>
              var p := Perform(cfg, env, st, Classify(Trim(text)), Trim(text));
              r == (p.0, Some(p.1))
    ensures AllValid(cfg, r.0.sessions)
    ensures OthersKept(st.sessions, r.0.sessions, env.jid)
    ensures NoOverlap(st.store) ==> NoOverlap(r.0.store)
  {
    if text == [] then (st, None)
    else
      var t := Trim(text);
      var (next, reply) := Perform(cfg, env, st, Classify(t), t);
      (next, Some(reply))
  }

  lemma CancelKeepsNoOverlap(store: Store, kept: Store)
    requires IsSubsequence(kept, store)
    ensures NoOverlap(store) ==> NoOverlap(kept)
  {
    if NoOverlap(store) {
      SubsequenceKeepsNoOverlap(kept, store);
    }
  }

  lemma GrowthKeepsNoOverlap(before: Store, after: Store)
    requires GrewByFreeBooking(before, after)
    ensures NoOverlap(before) ==> NoOverlap(after)
  {
    if after != before {
      var b := after[|before|];
      assert after == before + [b];
      AppendKeepsNoOverlap(before, b);
    }
  }

  /** A cancel without an id argument answers with the usage line and changes nothing. */
  lemma CancelWithoutIdChangesNothing(cfg: Config, env: Env, st: State, text: string)
    requires AllValid(cfg, st.sessions)
    requires text != [] && StartsWith(Trim(text), "/cancel") && |Tokens(Trim(text))| < 2
    ensures Route(cfg, env, st, text) == (st, Some(CancelFormat))
  {
    var t := Trim(text);
    assert Classify(t) == CancelCmd;
  }

  /** A single word starting with "/cancel" (such as "/cancelx", or "/cancel" alone) is
      not a command of its own: it reaches the cancel path, which finds no id
      argument and removes nothing. */
  lemma CancelPrefixIsCancel(cfg: Config, env: Env, st: State, w: string)
    requires AllValid(cfg, st.sessions)
    requires IsWord(w) && StartsWith(w, "/cancel")
    ensures Route(cfg, env, st, w) == (st, Some(CancelFormat))
  {
    assert Trimmed(w) by {
      assert !IsSpace(w[0]) && !IsSpace(w[|w| - 1]);
    }
    TrimTrimmed(w);
    TokensOfWord(w);
    CancelWithoutIdChangesNothing(cfg, env, st, w);
  }

  /** "/book" restarts the wizard from any step, whatever the session held. */
  lemma BookRestartsFromAnyStep(cfg: Config, env: Env, st: State, pre: string, post: string)
    requires AllValid(cfg, st.sessions)
    requires AllSpace(pre) && AllSpace(post)
    ensures var r := Route(cfg, env, st, pre + "/book" + post);
            var b := BookCommand(cfg, env, st);
            && r == (b.0, Some(b.1))
            && r.0.store == st.store && env.jid in r.0.sessions
            && r.0.sessions[env.jid].step == ChooseDate
            && r.0.sessions[env.jid].slot.None? && r.0.sessions[env.jid].cabin.None?
  {
    assert Trimmed("/book");
    TrimStrips(pre, "/book", post);
  }

  /** Plain text from a caller without a dialogue greets and leaves the caller idle. */
  lemma IdleTextGreets(cfg: Config, env: Env, st: State, text: string)
    requires AllValid(cfg, st.sessions)
    requires text != [] && env.jid !in st.sessions
    requires var t := Trim(text);
             t != "/help" && t != "/reset" && t != "/book" && t != "/my" && !StartsWith(t, "/cancel")
    ensures var r := Route(cfg, env, st, text);
            && r.1 == Some(Greeting)
            && r.0.sessions == st.sessions[env.jid := Fresh]
            && r.0.store == st.store
  {
  }
}
