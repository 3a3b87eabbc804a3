/**
 * The browser-side session cache used to rejoin a game: one entry in local storage
 * under a fixed key, saved on join, expired after 24 hours, merged on update. The
 * clock is a parameter (`now`, in milliseconds since the epoch).
 */
module SessionStorage {
  import opened Wrappers

  const SessionKey := "quiz_buzzer_session"

  /** 24 hours in milliseconds. */
  const MaxAge: int := 24 * 60 * 60 * 1000

  /**
   * A parsed session entry. A field the stored object lacks is `None`; a timestamp
   * that does not parse as a date is `None` as well (its age is NaN).
   */
  datatype Session = Session(
    sessionId: Option<string>,
    playerId: Option<int>,
    gameId: Option<int>,
    roomCode: Option<string>,
    playerName: Option<string>,
    isHost: bool,
    timestamp: Option<int>)

  /** The argument of `saveSession`. */
  datatype SessionData = SessionData(
    sessionId: Option<string>,
    playerId: Option<int>,
    gameId: Option<int>,
    roomCode: Option<string>,
    playerName: Option<string>,
    isHost: Option<bool>)

  /** The fields an `updateSession` call supplies; `None` means not supplied. */
  datatype SessionPatch = SessionPatch(
    sessionId: Option<string>,
    playerId: Option<int>,
    gameId: Option<int>,
    roomCode: Option<string>,
    playerName: Option<string>,
    isHost: Option<bool>)

  /** A stored text: JSON that parses as a session object, or anything else. */
  datatype Stored = Parsed(session: Session) | Unparseable

  /** The object `saveSession` stores: the six fields, `isHost || false`, and the time of saving. */
  function Saved(data: SessionData, now: int): (s: Session)
    ensures s.sessionId == data.sessionId && s.playerId == data.playerId && s.gameId == data.gameId
    ensures s.roomCode == data.roomCode && s.playerName == data.playerName
    ensures s.isHost <==> data.isHost == Some(true)
    ensures s.timestamp == Some(now)
  {
    Session(data.sessionId, data.playerId, data.gameId, data.roomCode, data.playerName, data.isHost == Some(true), Some(now))
  }

  /** Strictly older than 24 hours; an unparseable timestamp never expires (NaN compares false). */
  predicate Expired(s: Session, now: int) {
    s.timestamp.Some? && now - s.timestamp.value > MaxAge
  }

  /** What `loadSession` returns for the storage contents `items` at time `now`. */
  function Loaded(items: map<string, Stored>, now: int): (r: Option<Session>)
    ensures r.None? <==> SessionKey !in items || items[SessionKey].Unparseable? || Expired(items[SessionKey].session, now)
    ensures r.Some? ==> items[SessionKey] == Parsed(r.value)
  {
    if SessionKey !in items then None
    else match items[SessionKey]
      case Unparseable => None
      case Parsed(s) => if Expired(s, now) then None else Some(s)
  }

  /** The storage after `loadSession`: an expired entry is removed, anything else is left alone. */
  function AfterLoad(items: map<string, Stored>, now: int): (r: map<string, Stored>)
    ensures forall k :: k != SessionKey ==> (k in r <==> k in items) && (k in r ==> r[k] == items[k])
    ensures SessionKey in r <==> SessionKey in items && !(items[SessionKey].Parsed? && Expired(items[SessionKey].session, now))
  {
    if SessionKey in items && items[SessionKey].Parsed? && Expired(items[SessionKey].session, now)
    then items - {SessionKey} else items
  }

  /** A present, non-empty string is truthy. */
  predicate TruthyText(s: Option<string>) { s.Some? && s.value != [] }

  /** A present, non-zero number is truthy. */
  predicate TruthyNumber(n: Option<int>) { n.Some? && n.value != 0 }

  /** `hasActiveSession`: a session loads and has a session id and a game id. */
  predicate ActiveIn(items: map<string, Stored>, now: int) {
    var s := Loaded(items, now);
    s.Some? && TruthyText(s.value.sessionId) && TruthyNumber(s.value.gameId)
  }

  /** `{...current, ...updates, timestamp}`: supplied fields win, the rest are kept, the timestamp is now. */
  function Merge(s: Session, patch: SessionPatch, now: int): (r: Session)
    ensures r.sessionId == (if patch.sessionId.Some? then patch.sessionId else s.sessionId)
    ensures r.playerId == (if patch.playerId.Some? then patch.playerId else s.playerId)
    ensures r.gameId == (if patch.gameId.Some? then patch.gameId else s.gameId)
    ensures r.roomCode == (if patch.roomCode.Some? then patch.roomCode else s.roomCode)
    ensures r.playerName == (if patch.playerName.Some? then patch.playerName else s.playerName)
    ensures r.isHost == (if patch.isHost.Some? then patch.isHost.value else s.isHost)
    ensures r.timestamp == Some(now)
  {
    Session(
      if patch.sessionId.Some? then patch.sessionId else s.sessionId,
      if patch.playerId.Some? then patch.playerId else s.playerId,
      if patch.gameId.Some? then patch.gameId else s.gameId,
      if patch.roomCode.Some? then patch.roomCode else s.roomCode,
      if patch.playerName.Some? then patch.playerName else s.playerName,
      if patch.isHost.Some? then patch.isHost.value else s.isHost,
      Some(now))
  }

  /** The browser's local storage, as far as the session cache uses it. */
  class LocalStorage {
    var items: map<string, Stored>

    constructor(items: map<string, Stored>)
      ensures this.items == items
    {
      this.items := items;
    }

    /** `saveSession`: writes the session object under the key. */
    method SaveSession(data: SessionData, now: int) returns (ok: bool)
      modifies this
      ensures ok
      ensures items == old(items)[SessionKey := Parsed(Saved(data, now))]
    {
      items := items[SessionKey := Parsed(Saved(data, now))];
      return true;
    }

    /** `clearSession`: removes the key. */
    method ClearSession() returns (ok: bool)
      modifies this
      ensures ok
      ensures items == old(items) - {SessionKey}
    {
      items := items - {SessionKey};
      return true;
    }

    /** `loadSession`: the stored session unless it is missing, unparseable or expired; an expired one is cleared. */
    method LoadSession(now: int) returns (session: Option<Session>)
      modifies this
      ensures session == Loaded(old(items), now)
      ensures items == AfterLoad(old(items), now)
    {
      if SessionKey !in items {
        return None;
      }
      match items[SessionKey]
      case Unparseable =>
        return None;
      case Parsed(s) =>
        if s.timestamp.Some? {
          var sessionAge := now - s.timestamp.value;
          if sessionAge > MaxAge {
            var _ := ClearSession();
            return None;
          }
        }
        return Some(s);
    }

    /** `hasActiveSession`: loads (clearing an expired entry) and checks the two ids. */
    method HasActiveSession(now: int) returns (active: bool)
      modifies this
      ensures active == ActiveIn(old(items), now)
      ensures items == AfterLoad(old(items), now)
    {
      var session := LoadSession(now);
      active := session.Some? && TruthyText(session.value.sessionId) && TruthyNumber(session.value.gameId);
    }

    /** `updateSession`: false when no session loads; otherwise the merged session is written back. */
    method UpdateSession(patch: SessionPatch, now: int) returns (ok: bool)
      modifies this
      ensures ok <==> Loaded(old(items), now).Some?
      ensures !ok ==> items == AfterLoad(old(items), now)
      ensures ok ==> items == old(items)[SessionKey := Parsed(Merge(Loaded(old(items), now).value, patch, now))]
    {
      var currentSession := LoadSession(now);
      if currentSession.None? {
        return false;
      }
      var updatedSession := Merge(currentSession.value, patch, now);
      items := items[SessionKey := Parsed(updatedSession)];
      return true;
    }
  }

  /** A saved session loads back unchanged for 24 hours, the 24th hour included. */
  lemma SaveThenLoad(items: map<string, Stored>, data: SessionData, saved: int, now: int)
    requires now - saved <= MaxAge
    ensures Loaded(items[SessionKey := Parsed(Saved(data, saved))], now) == Some(Saved(data, saved))
  {
  }

  /** One millisecond past 24 hours it is gone, and loading removes it. */
  lemma SavedSessionExpires(items: map<string, Stored>, data: SessionData, saved: int, now: int)
    requires now - saved > MaxAge
    ensures Loaded(items[SessionKey := Parsed(Saved(data, saved))], now).None?
    ensures SessionKey !in AfterLoad(items[SessionKey := Parsed(Saved(data, saved))], now)
  {
  }

  /** After clearing, nothing loads. */
  lemma ClearThenLoad(items: map<string, Stored>, now: int)
    ensures Loaded(items - {SessionKey}, now).None?
  {
  }

  /** Loading twice at the same time gives the same answer: the first load only removes what the second would reject. */
  lemma LoadIsStable(items: map<string, Stored>, now: int)
    ensures Loaded(AfterLoad(items, now), now) == Loaded(items, now)
    ensures AfterLoad(AfterLoad(items, now), now) == AfterLoad(items, now)
  {
  }

  /** An update is visible to the next load at the same time, with its fresh timestamp. */
  lemma UpdateThenLoad(items: map<string, Stored>, patch: SessionPatch, now: int)
    requires Loaded(items, now).Some?
    ensures var written := items[SessionKey := Parsed(Merge(Loaded(items, now).value, patch, now))];
      Loaded(written, now) == Some(Merge(Loaded(items, now).value, patch, now))
  {
  }

  /** An update that supplies nothing only refreshes the timestamp. */
  lemma EmptyUpdateRefreshes(s: Session, now: int)
    ensures Merge(s, SessionPatch(None, None, None, None, None, None), now) == s.(timestamp := Some(now))
  {
  }

  /** A session saved for a game with a session id is active until it expires. */
  lemma SavedSessionIsActive(items: map<string, Stored>, data: SessionData, saved: int, now: int)
    requires TruthyText(data.sessionId) && TruthyNumber(data.gameId)
    ensures ActiveIn(items[SessionKey := Parsed(Saved(data, saved))], now) <==> now - saved <= MaxAge
  {
  }
}
