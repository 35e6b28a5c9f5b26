/**
 * The session store (src/store/authStore.ts): the access token, the logged-in flag,
 * and the browser's localStorage that zustand's `persist` middleware writes under
 * the name `user-token`.
 */
module Auth {
  import opened Wrappers
  import opened Types
  import opened Http

  /** The key `persist` stores the snapshot under. */
  const UserTokenKey := "user-token"

  /** The keys the logout paths remove, one by one. */
  const LogoutKeys: set<string> := {"admin-job-storage", "admin-storage", "page-storage", "user-token"}

  /** What `partialize` keeps of the state: the access token and nothing else. */
  datatype Persisted = Persisted(accessToken: Option<string>)

  /** A localStorage entry: this store's snapshot, or text another part of the application wrote. */
  datatype Stored = Snapshot(state: Persisted) | Text(text: string)

  type Storage = map<string, Stored>

  /** The store's fields together with localStorage. */
  datatype Session = Session(accessToken: Option<string>, isLoggedIn: bool, storage: Storage)

  /** The flag agrees with the token: logged in exactly when the token is truthy. */
  predicate Consistent(s: Session) {
    s.isLoggedIn == Truthy(s.accessToken)
  }

  /** The state a page load starts from, before rehydration: no token, not logged in. */
  function Initial(storage: Storage): (s: Session)
    ensures Consistent(s) && s.storage == storage
    ensures s.accessToken == None && !s.isLoggedIn
  {
    Session(None, false, storage)
  }

  /** `partialize`: the snapshot `persist` writes. */
  function Partialize(s: Session): Persisted {
    Persisted(s.accessToken)
  }

  /** The snapshot depends on the token alone; the flag and the rest of storage never leak into it. */
  lemma PartializeOnlyToken(s: Session, t: Session)
    ensures Partialize(s) == Partialize(t) <==> s.accessToken == t.accessToken
  {
  }

  /** zustand's `set` under `persist`: the fields change, then the new snapshot is written. */
  function AfterSet(s: Session, accessToken: Option<string>, isLoggedIn: bool): (r: Session)
    ensures r.accessToken == accessToken && r.isLoggedIn == isLoggedIn
    ensures r.storage.Keys == s.storage.Keys + {UserTokenKey}
    ensures r.storage[UserTokenKey] == Snapshot(Partialize(r))
    ensures forall k :: k in s.storage && k != UserTokenKey ==> r.storage[k] == s.storage[k]
  {
    var r := Session(accessToken, isLoggedIn, s.storage);
    r.(storage := s.storage[UserTokenKey := Snapshot(Partialize(r))])
  }

  /** `setIsLoggedIn(b)` (authStore.ts:22): sets the flag alone. */
  function AfterSetIsLoggedIn(s: Session, b: bool): (r: Session)
    ensures r.accessToken == s.accessToken && r.isLoggedIn == b
  {
    AfterSet(s, s.accessToken, b)
  }

  /** `setTokens(t)` (authStore.ts:23). */
  function AfterSetTokens(s: Session, t: Option<string>): (r: Session)
    ensures r.accessToken == t
    ensures Consistent(r)
    ensures UserTokenKey in r.storage && r.storage[UserTokenKey] == Snapshot(Persisted(t))
  {
    AfterSet(s, t, Truthy(t))
  }

  /** `clearTokens()` (authStore.ts:24). */
  function AfterClearTokens(s: Session): (r: Session)
    ensures r.accessToken == None && !r.isLoggedIn
    ensures Consistent(r)
  {
    AfterSet(s, None, false)
  }

  /** Clearing twice is clearing once. */
  lemma ClearTokensIdempotent(s: Session)
    ensures AfterClearTokens(AfterClearTokens(s)) == AfterClearTokens(s)
  {
  }

  /** The logout cleanup (authStore.ts:33-37 and 45-50): clear the session, then remove the four keys. */
  function AfterForceLogout(s: Session): (r: Session)
    ensures r.accessToken == None && !r.isLoggedIn
    ensures r.storage.Keys == s.storage.Keys - LogoutKeys
    ensures forall k :: k in r.storage ==> r.storage[k] == s.storage[k]
  {
    var c := AfterSet(s, None, false);
    c.(storage := c.storage - LogoutKeys)
  }

  /** `setLogout` (authStore.ts:26-43): the POST's rejection propagates; only status 200 logs out. */
  function AfterLogout(s: Session, call: Call<()>): (r: (Session, Settled<()>))
    ensures call.Rejected? ==> r == (s, Threw)
    ensures call.Resolved? && call.reply.status == 200 ==> r == (AfterForceLogout(s), Returned(()))
    ensures call.Resolved? && call.reply.status != 200 ==> r == (s, Returned(()))
  {
    match call
    case Rejected => (s, Threw)
    case Resolved(reply) => if reply.status == 200 then (AfterForceLogout(s), Returned(())) else (s, Returned(()))
  }

  /** `withdraw` (authStore.ts:52-65): status 200 empties localStorage; the in-memory token stays. */
  function AfterWithdraw(s: Session, call: Call<()>): (r: (Session, Settled<()>))
    ensures r.0.accessToken == s.accessToken && r.0.isLoggedIn == s.isLoggedIn
    ensures r.1.Threw? <==> call.Rejected?
    ensures r.0.storage == if call.Resolved? && call.reply.status == 200 then map[] else s.storage
  {
    match call
    case Rejected => (s, Threw)
    case Resolved(reply) => (if reply.status == 200 then s.(storage := map[]) else s, Returned(()))
  }

  /**
   * `onRehydrateStorage` (authStore.ts:72-78): a stored snapshot's token is merged into the
   * state, and the flag becomes true when the resulting token is truthy; otherwise the flag keeps
   * its value. Storage is read, not written.
   */
  function AfterRehydrate(s: Session): (r: Session)
    ensures r.storage == s.storage
    ensures Truthy(r.accessToken) ==> r.isLoggedIn
    ensures !Truthy(r.accessToken) ==> r.isLoggedIn == s.isLoggedIn
    ensures (UserTokenKey in s.storage && s.storage[UserTokenKey].Snapshot?) ==>
              r.accessToken == s.storage[UserTokenKey].state.accessToken
    ensures !(UserTokenKey in s.storage && s.storage[UserTokenKey].Snapshot?) ==> r.accessToken == s.accessToken
  {
    var token :=
      if UserTokenKey in s.storage && s.storage[UserTokenKey].Snapshot?
      then s.storage[UserTokenKey].state.accessToken
      else s.accessToken;
    s.(accessToken := token, isLoggedIn := if Truthy(token) then true else s.isLoggedIn)
  }

  /** Every action except `setIsLoggedIn` keeps the flag in agreement with the token. */
  lemma ActionsKeepConsistent(s: Session, t: Option<string>, call: Call<()>)
    requires Consistent(s)
    ensures Consistent(AfterSetTokens(s, t)) && Consistent(AfterClearTokens(s))
    ensures Consistent(AfterForceLogout(s))
    ensures Consistent(AfterLogout(s, call).0) && Consistent(AfterWithdraw(s, call).0)
  {
  }

  /** `setIsLoggedIn` alone can break that agreement. */
  lemma SetIsLoggedInBreaksConsistency(s: Session)
    requires s.accessToken == None
    ensures !Consistent(AfterSetIsLoggedIn(s, true))
  {
  }

  /**
   * Persist, reload, rehydrate: a page load that finds the snapshot `setTokens(t)` wrote restores
   * the token and a consistent logged-in flag.
   */
  lemma {:induction false} SetTokensSurvivesReload(s: Session, t: Option<string>)
    ensures var reloaded := AfterRehydrate(Initial(AfterSetTokens(s, t).storage));
            reloaded.accessToken == t && Consistent(reloaded)
  {
    var stored := AfterSetTokens(s, t).storage;
    assert stored[UserTokenKey] == Snapshot(Persisted(t));
  }

  /** After a forced logout a reload finds no snapshot and starts logged out. */
  lemma ForceLogoutSurvivesReload(s: Session)
    ensures var reloaded := AfterRehydrate(Initial(AfterForceLogout(s).storage));
            reloaded.accessToken == None && !reloaded.isLoggedIn
  {
  }

  /** The store object: its fields are updated in place through `set`. */
  class AuthStore {
    var accessToken: Option<string>
    var isLoggedIn: bool
    var storage: Storage

    function Value(): Session
      reads this
    {
      Session(accessToken, isLoggedIn, storage)
    }

    /** A fresh store over the localStorage the browser holds. */
    constructor (stored: Storage)
      ensures Value() == Initial(stored)
    {
      accessToken := None;
      isLoggedIn := false;
      storage := stored;
    }

    /** `set(...)`, with `persist` writing the snapshot afterwards. */
    method Set(token: Option<string>, loggedIn: bool)
      modifies this
      ensures Value() == AfterSet(old(Value()), token, loggedIn)
    {
      accessToken, isLoggedIn := token, loggedIn;
      storage := storage[UserTokenKey := Snapshot(Persisted(accessToken))];
    }

    method SetIsLoggedIn(b: bool)
      modifies this
      ensures Value() == AfterSetIsLoggedIn(old(Value()), b)
    {
      Set(accessToken, b);
    }

    method SetTokens(t: Option<string>)
      modifies this
      ensures Value() == AfterSetTokens(old(Value()), t)
    {
      Set(t, Truthy(t));
    }

    method ClearTokens()
      modifies this
      ensures Value() == AfterClearTokens(old(Value()))
    {
      Set(None, false);
    }

    /** `setForceLogout`: clear the session, then remove the keys one by one. */
    method SetForceLogout()
      modifies this
      ensures Value() == AfterForceLogout(old(Value()))
    {
      Set(None, false);
      storage := storage - {"admin-job-storage"};
      storage := storage - {"admin-storage"};
      storage := storage - {"page-storage"};
      storage := storage - {"user-token"};
      assert storage == AfterSet(old(Value()), None, false).storage - LogoutKeys;
    }

    /** `setLogout`, given what the logout POST yields. */
    method SetLogout(call: Call<()>) returns (settled: Settled<()>)
      modifies this
      ensures (Value(), settled) == AfterLogout(old(Value()), call)
    {
      if call.Rejected? {
        return Threw;
      }
      if call.reply.status == 200 {
        SetForceLogout();
      }
      settled := Returned(());
    }

    /** `withdraw`, given what the DELETE yields. */
    method Withdraw(call: Call<()>) returns (settled: Settled<()>)
      modifies this
      ensures (Value(), settled) == AfterWithdraw(old(Value()), call)
    {
      if call.Rejected? {
        return Threw;
      }
      if call.reply.status == 200 {
        storage := map[];
      }
      settled := Returned(());
    }

    /** The callback `onRehydrateStorage` installs, run after the snapshot is merged. */
    method Rehydrate()
      modifies this
      ensures Value() == AfterRehydrate(old(Value()))
    {
      if UserTokenKey in storage && storage[UserTokenKey].Snapshot? {
        accessToken := storage[UserTokenKey].state.accessToken;
      }
      if Truthy(accessToken) {
        isLoggedIn := true;
      }
    }
  }
}
