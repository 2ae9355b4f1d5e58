/**
  Model of sessionManager.js and the session map of index.js: one dialogue
  state per chat user, created on first contact.
*/
module Sessions {
  import opened Options
  import opened Utils
  import opened Schedule

  /** The wizard steps; the minimal wizard never enters `ChoosePeople`. */
  datatype Step = Idle | ChooseDate | ChooseSlot | ChooseCabin | ChoosePeople | Confirm

  /**
    A dialogue state. `availableSlots` and `freeCabins` are the lists the
    last menus showed; a list that was never set reads as empty, which is
    how the handlers treat a missing one.
  */
  datatype Session = Session(
    step: Step,
    date: Option<Date>,
    slot: Option<Slot>,
    cabin: Option<int>,
    people: Option<int>,
    price: Option<int>,
    availableSlots: seq<Slot>,
    freeCabins: seq<int>)

  /** The `{ step: "IDLE" }` object. */
  const Fresh := Session(Idle, None, None, None, None, None, [], [])

  type SessionMap = map<string, Session>

  /** getSession: the stored session, or a fresh idle one that is stored first. */
  function GetSession(m: SessionMap, user: string): (r: (Session, SessionMap))
    ensures user in r.1 && r.1[user] == r.0
    ensures user in m ==> r.0 == m[user] && r.1 == m
    ensures user !in m ==> r.0.step == Idle && r.0 == Fresh
    ensures r.1.Keys == m.Keys + {user}
    ensures forall u :: u in m && u != user ==> r.1[u] == m[u]
  {
    if user in m then (m[user], m) else (Fresh, m[user := Fresh])
  }

  /** resetSession: the user's entry becomes a fresh idle session, whatever it held. */
  function ResetSession(m: SessionMap, user: string): (r: SessionMap)
    ensures user in r && r[user].step == Idle
    ensures r[user].availableSlots == [] && r[user].freeCabins == []
    ensures r.Keys == m.Keys + {user}
    ensures forall u :: u in m && u != user ==> r[u] == m[u]
  {
    m[user := Fresh]
  }

  /** A second lookup returns the same session and changes nothing more. */
  lemma GetSessionIdempotent(m: SessionMap, user: string)
    ensures var (s, m1) := GetSession(m, user);
            GetSession(m1, user) == (s, m1)
  {
  }

  /** Resetting twice is resetting once, and a lookup right after a reset
      sees the fresh session without inserting anything. */
  lemma ResetThenGet(m: SessionMap, user: string)
    ensures ResetSession(ResetSession(m, user), user) == ResetSession(m, user)
    ensures GetSession(ResetSession(m, user), user) == (Fresh, ResetSession(m, user))
  {
  }
}
