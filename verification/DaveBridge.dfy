/** The extension's view of the end-to-end session (dave.py): every use of the session goes through a
    refresh under the shared lock. */
module Dave {
  import opened Bytes
  import opened Options

  /** `davey.SessionStatus`, by number. */
  type Status = nat

  /** The library's session, by identity, and what can be read off it. */
  datatype Session = Session(identity: nat, epoch: int, status: Status, ready: bool)

  /** What the gateway may change while nobody holds the lock. */
  datatype Connection = Connection(
    session: Option<Session>, version: nat, generation: nat, transitions: map<nat, nat>, downgraded: bool)

  /** `DaveState`. */
  datatype State = State(
    version: nat, epoch: Option<int>, status: Option<Status>, transitions: set<nat>, lastChange: Option<real>,
    ready: bool, downgradeAllowed: bool, preparedAt: Option<real>, generation: nat)

  /** An encrypted session is ready, and no downgrade is pending or done. */
  predicate Strict(s: State) {
    s.version > 0 && s.ready && !s.downgradeAllowed
  }

  datatype Bridge = Bridge(preparedAt: Option<real>, session: Option<nat>, state: State)

  const NEW_BRIDGE: Bridge := Bridge(None, None, State(0, None, None, {}, None, false, false, None, 0))

  /** `_refresh_locked`. */
  function Refreshed(b: Bridge, c: Connection, now: real): Bridge {
    var prepared := if c.generation != b.state.generation then None else b.preparedAt;
    var epoch := if c.session.Some? then Some(c.session.value.epoch) else None;
    var identity := if c.session.Some? then Some(c.session.value.identity) else None;
    var changed := identity != b.session || epoch != b.state.epoch || c.generation != b.state.generation;
    Bridge(prepared, identity, State(
      c.version, epoch, if c.session.Some? then Some(c.session.value.status) else None, c.transitions.Keys,
      if changed then Some(now) else b.state.lastChange,
      c.version > 0 && c.session.Some? && c.session.value.ready,
      c.downgraded || 0 in c.transitions.Values,
      prepared, c.generation))
  }

  /** `epoch_prepared`. */
  function Prepared(b: Bridge, c: Connection, now: real, epoch: int): Bridge {
    if epoch == 1 then Refreshed(b, c, now).(preparedAt := Some(now)) else b
  }

  /** What the library's `decrypt` does: returns octets, or raises. */
  datatype Native = Plain(data: Bytes) | RaisesRuntime | RaisesNoDecryptor | RaisesValue

  datatype Outcome = Ok(data: Bytes) | NotReady | PlaintextRejected | Busy | NoDecryptor | DecryptError

  /** Whether `decrypt_audio` gets as far as calling the library. */
  predicate Consults(state: State, payload: Bytes) {
    state.ready && (state.downgradeAllowed || EndsWithMarker(payload))
  }

  /** `decrypt_audio`, once refreshed. */
  function Decrypted(state: State, payload: Bytes, native: Native): Outcome {
    if !state.ready then NotReady
    else if !state.downgradeAllowed && !EndsWithMarker(payload) then PlaintextRejected
    else match native
      case Plain(data) => Ok(data)
      case RaisesRuntime => Busy
      case RaisesNoDecryptor => NoDecryptor
      case RaisesValue => DecryptError
  }

  class DaveBridge {
    var epochPreparedAt: Option<real>
    var session: Option<nat>
    var state: State

    ghost function View(): Bridge
      reads this
    {
      Bridge(epochPreparedAt, session, state)
    }

    constructor ()
      ensures View() == NEW_BRIDGE
    {
      epochPreparedAt := None;
      session := None;
      state := State(0, None, None, {}, None, false, false, None, 0);
    }

    method Refresh(c: Connection, now: real) returns (s: State)
      modifies this
      ensures View() == Refreshed(old(View()), c, now) && s == state
    {
      if c.generation != state.generation {
        epochPreparedAt := None;
      }
      var epoch := if c.session.Some? then Some(c.session.value.epoch) else None;
      var identity := if c.session.Some? then Some(c.session.value.identity) else None;
      var changedAt := state.lastChange;
      if identity != session || epoch != state.epoch || c.generation != state.generation {
        changedAt := Some(now);
      }
      session := identity;
      state := State(
        c.version, epoch, if c.session.Some? then Some(c.session.value.status) else None,
        c.transitions.Keys, changedAt,
        c.version > 0 && c.session.Some? && c.session.value.ready,
        c.downgraded || 0 in c.transitions.Values,
        epochPreparedAt, c.generation);
      s := state;
    }

    method EpochPrepared(c: Connection, now: real, epoch: int)
      modifies this
      ensures View() == Prepared(old(View()), c, now, epoch)
    {
      if epoch == 1 {
        var s := Refresh(c, now);
        epochPreparedAt := Some(now);
      }
    }

    method DecryptAudio(c: Connection, now: real, payload: Bytes, native: Native) returns (r: Outcome)
      modifies this
      ensures View() == Refreshed(old(View()), c, now)
      ensures r == Decrypted(state, payload, native)
    {
      var s := Refresh(c, now);
      if !s.ready {
        return NotReady;
      }
      if !s.downgradeAllowed && !EndsWithMarker(payload) {
        return PlaintextRejected;
      }
      match native {
        case Plain(data) => r := Ok(data);
        case RaisesRuntime => r := Busy;
        case RaisesNoDecryptor => r := NoDecryptor;
        case RaisesValue => r := DecryptError;
      }
    }
  }

  /** While the lock is held a second refresh, at whatever time, changes nothing: decrypting sees the very
      state that was observed before. */
  lemma RefreshIsStable(b: Bridge, c: Connection, now: real, later: real)
    ensures Refreshed(Refreshed(b, c, now), c, later) == Refreshed(b, c, now)
  {
  }

  /** A refresh tells the truth about the connection. */
  lemma RefreshIsTrue(b: Bridge, c: Connection, now: real)
    ensures var s := Refreshed(b, c, now).state;
            && s.generation == c.generation && s.version == c.version
            && (s.ready <==> c.version > 0 && c.session.Some? && c.session.value.ready)
            && (s.downgradeAllowed <==> c.downgraded || exists t :: t in c.transitions && c.transitions[t] == 0)
            && (forall t :: t in s.transitions <==> t in c.transitions)
            && match c.session
               case None => s.epoch == None && s.status == None
               case Some(session) => s.epoch == Some(session.epoch) && s.status == Some(session.status)
  {
    if 0 in c.transitions.Values {
      var t :| t in c.transitions && c.transitions[t] == 0;
    }
  }

  /** The time of the last change moves exactly when the session, its epoch or the generation is another. */
  lemma ChangeIsNoticed(b: Bridge, c: Connection, now: real)
    ensures var r := Refreshed(b, c, now);
            if r.session == b.session && r.state.epoch == b.state.epoch && r.state.generation == b.state.generation
            then r.state.lastChange == b.state.lastChange
            else r.state.lastChange == Some(now)
  {
  }

  /** When a session is strict, in terms of the connection. */
  lemma StrictExactly(b: Bridge, c: Connection, now: real)
    ensures Strict(Refreshed(b, c, now).state)
       <==> && c.version > 0 && c.session.Some? && c.session.value.ready && !c.downgraded
            && forall t | t in c.transitions :: c.transitions[t] != 0
  {
    RefreshIsTrue(b, c, now);
  }
}
