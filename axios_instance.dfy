/**
 * The shared HTTP client (src/api/axiosInstance.ts): a request interceptor that attaches the
 * bearer token, and a response interceptor that answers a first 401 by refreshing the token
 * and replaying the request once.
 *
 * The server is an oracle: a script of answers, one consumed per request actually sent. When the
 * script runs out the run stops with `Exhausted`; that is the model's fuel, not a behaviour of the
 * client.
 */
module Interceptors {
  import opened Wrappers
  import opened Types
  import Http
  import opened Seqs
  import Auth

  const RefreshUrl := "/auth/token/refresh"
  const SignInPath := "/signIn"

  /** The request config the interceptors read and mutate: target, Authorization header, `_retry`. */
  datatype Config = Config(url: string, authorization: Option<string>, retry: bool)

  /** The config of the refresh POST: a fresh object, so `_retry` is unset. */
  const RefreshConfig := Config(RefreshUrl, None, false)

  /** A response: its status, and the `accessToken` field of its body when there is one. */
  datatype Response = Response(status: int, accessToken: Option<string>)

  /** What comes back for one request sent: a response, or no response at all (network failure). */
  datatype Answer = Reply(response: Response) | NetworkError

  /** The rejection axios raises: the config that was sent and what came back. */
  datatype Failure = Failure(config: Config, answer: Answer)

  /** How a request through the client settles. */
  datatype Outcome = Resolved(response: Response) | Rejected(error: Failure) | Exhausted

  /** The client's world: the auth store, `window.location.href`, the requests sent so far, the answers still to come. */
  datatype World = World(session: Auth.Session, location: string, sent: seq<Config>, answers: seq<Answer>)

  datatype Run = Run(world: World, outcome: Outcome)

  /** The template `Bearer ${token}`; a missing token prints as `undefined`. */
  function Bearer(token: Option<string>): string {
    "Bearer " + match token case Some(t) => t case None => "undefined"
  }

  /** The request interceptor (axiosInstance.ts:10-19). */
  function Attach(token: Option<string>, cfg: Config): (c: Config)
    ensures c.url == cfg.url && c.retry == cfg.retry
    ensures Truthy(token) ==> c.authorization == Some(Bearer(token))
    ensures !Truthy(token) ==> c == cfg
  {
    if Truthy(token) then cfg.(authorization := Some(Bearer(token))) else cfg
  }

  /** A 401 the response interceptor answers with a refresh: the request has not been retried yet. */
  predicate TriggersRefresh(req: Config, answer: Answer) {
    answer.Reply? && answer.response.status == 401 && !req.retry
  }

  /** The world after a successful refresh: `setTokens` with the token the refresh returned. */
  function Refreshed(w: World, res: Response): (r: World)
    ensures r.session == Auth.AfterSetTokens(w.session, res.accessToken)
    ensures r.location == w.location && r.sent == w.sent && r.answers == w.answers
  {
    w.(session := Auth.AfterSetTokens(w.session, res.accessToken))
  }

  /** The original request as replayed: marked retried and carrying the refreshed token. */
  function ReplayOf(req: Config, res: Response): (c: Config)
    ensures c.url == req.url && c.retry
    ensures c.authorization == Some(Bearer(res.accessToken))
  {
    req.(retry := true, authorization := Some(Bearer(res.accessToken)))
  }

  /** The world after a failed refresh: `clearTokens`, then the sign-in page. */
  function SignedOut(w: World): (r: World)
    ensures r.session == Auth.AfterClearTokens(w.session) && r.location == SignInPath
    ensures r.sent == w.sent && r.answers == w.answers
  {
    w.(session := Auth.AfterClearTokens(w.session), location := SignInPath)
  }

  /**
   * One request through the client as written (axiosInstance.ts:10-47): attach the token, send,
   * and on a first 401 mark the request retried, refresh through the same client, then either
   * store the new token and replay, or clear the tokens, go to the sign-in page and reject
   * with the refresh error.
   */
  function Dispatch(w: World, cfg: Config): (r: Run)
    ensures |r.world.answers| <= |w.answers|
    ensures w.sent <= r.world.sent
    decreases |w.answers|
  {
    if w.answers == [] then Run(w, Exhausted)
    else
      var req := Attach(w.session.accessToken, cfg);
      var answer := w.answers[0];
      var w1 := w.(sent := w.sent + [req], answers := w.answers[1..]);
      if answer.Reply? && Http.IsSuccessStatus(answer.response.status) then
        Run(w1, Resolved(answer.response))
      else if TriggersRefresh(req, answer) then
        var refresh := Dispatch(w1, RefreshConfig);
        match refresh.outcome
        case Resolved(res) =>
          Dispatch(Refreshed(refresh.world, res), ReplayOf(req, res))
        case Rejected(e) =>
          Run(SignedOut(refresh.world), Rejected(e))
        case Exhausted =>
          refresh
      else
        Run(w1, Rejected(Failure(req, answer)))
  }

  /** The requests one dispatch added to the log. */
  function NewlySent(w: World, r: Run): seq<Config>
    requires w.sent <= r.world.sent
  {
    r.world.sent[|w.sent|..]
  }

  /** Successful responses pass through unchanged (axiosInstance.ts:22). */
  lemma PassThrough(w: World, cfg: Config)
    requires w.answers != [] && w.answers[0].Reply? && Http.IsSuccessStatus(w.answers[0].response.status)
    ensures var r := Dispatch(w, cfg);
            && r.outcome == Resolved(w.answers[0].response)
            && r.world == w.(sent := w.sent + [Attach(w.session.accessToken, cfg)], answers := w.answers[1..])
  {
  }

  /**
   * A failure that is not a 401, or a 401 on a request already retried, is rejected with that
   * very error; nothing is refreshed and the session is untouched (axiosInstance.ts:26, 45).
   */
  lemma NoRefreshWithoutFirst401(w: World, cfg: Config)
    requires w.answers != []
    requires !(w.answers[0].Reply? && Http.IsSuccessStatus(w.answers[0].response.status))
    requires !(w.answers[0].Reply? && w.answers[0].response.status == 401) || cfg.retry
    ensures var req := Attach(w.session.accessToken, cfg);
            var r := Dispatch(w, cfg);
            && r.outcome == Rejected(Failure(req, w.answers[0]))
            && r.world == w.(sent := w.sent + [req], answers := w.answers[1..])
  {
  }

  /** A request already marked retried is sent once and changes nothing else. */
  lemma RetriedSentOnce(w: World, cfg: Config)
    requires cfg.retry
    ensures var r := Dispatch(w, cfg);
            && |NewlySent(w, r)| <= 1
            && r.world.session == w.session && r.world.location == w.location
            && (r.outcome != Exhausted ==> |NewlySent(w, r)| == 1)
  {
  }

  /**
   * A first 401 followed by a successful refresh that yields token `t`: the token is stored with
   * `setTokens`, and the original request is replayed exactly once, marked retried and carrying
   * `Bearer t`; its outcome is the outcome of the whole call (axiosInstance.ts:26-37).
   */
  lemma {:induction false} RefreshThenReplay(w: World, cfg: Config)
    requires |w.answers| >= 3 && !cfg.retry
    requires w.answers[0].Reply? && w.answers[0].response.status == 401
    requires w.answers[1].Reply? && Http.IsSuccessStatus(w.answers[1].response.status)
    ensures var t := w.answers[1].response.accessToken;
            var req := Attach(w.session.accessToken, cfg);
            var replay := Attach(t, req.(retry := true, authorization := Some(Bearer(t))));
            var r := Dispatch(w, cfg);
            && r.world.session == Auth.AfterSetTokens(w.session, t)
            && r.world.location == w.location
            && r.world.sent == w.sent + [req, Attach(w.session.accessToken, RefreshConfig), replay]
            && r.world.answers == w.answers[3..]
            && replay.retry && replay.authorization == Some(Bearer(t))
            && r.outcome == (if w.answers[2].Reply? && Http.IsSuccessStatus(w.answers[2].response.status)
                             then Resolved(w.answers[2].response)
                             else Rejected(Failure(replay, w.answers[2])))
  {
    var req := Attach(w.session.accessToken, cfg);
    var w1 := w.(sent := w.sent + [req], answers := w.answers[1..]);
    var refresh := Dispatch(w1, RefreshConfig);
    PassThrough(w1, RefreshConfig);
    var t := w.answers[1].response.accessToken;
    var w2 := refresh.world.(session := Auth.AfterSetTokens(refresh.world.session, t));
    var replayCfg := req.(retry := true, authorization := Some(Bearer(t)));
    assert w2.answers == w.answers[2..];
    if w.answers[2].Reply? && Http.IsSuccessStatus(w.answers[2].response.status) {
      PassThrough(w2, replayCfg);
    } else {
      NoRefreshWithoutFirst401(w2, replayCfg);
    }
  }

  /**
   * A first 401 whose refresh fails without a 401 of its own: the tokens are cleared, the page
   * goes to `/signIn`, the refresh error is the rejection, and the original request is never
   * replayed (axiosInstance.ts:38-42).
   */
  lemma {:induction false} RefreshFailureSignsOut(w: World, cfg: Config)
    requires |w.answers| >= 2 && !cfg.retry
    requires w.answers[0].Reply? && w.answers[0].response.status == 401
    requires !(w.answers[1].Reply? && Http.IsSuccessStatus(w.answers[1].response.status))
    requires !(w.answers[1].Reply? && w.answers[1].response.status == 401)
    ensures var req := Attach(w.session.accessToken, cfg);
            var refreshReq := Attach(w.session.accessToken, RefreshConfig);
            var r := Dispatch(w, cfg);
            && r.world.session == Auth.AfterClearTokens(w.session)
            && r.world.location == SignInPath
            && r.outcome == Rejected(Failure(refreshReq, w.answers[1]))
            && r.world.sent == w.sent + [req, refreshReq]
            && r.world.answers == w.answers[2..]
  {
    var req := Attach(w.session.accessToken, cfg);
    var w1 := w.(sent := w.sent + [req], answers := w.answers[1..]);
    NoRefreshWithoutFirst401(w1, RefreshConfig);
  }

  /** How many of `log` went to `url`. */
  function SentTo(log: seq<Config>, url: string): (n: nat)
    ensures n <= |log|
  {
    if log == [] then 0 else (if log[0].url == url then 1 else 0) + SentTo(log[1..], url)
  }

  lemma {:induction false} SentToAppend(a: seq<Config>, b: seq<Config>, url: string)
    ensures SentTo(a + b, url) == SentTo(a, url) + SentTo(b, url)
  {
    if a == [] {
      assert a + b == b;
    } else {
      assert (a + b)[1..] == a[1..] + b;
      SentToAppend(a[1..], b, url);
    }
  }

  /** The requests one call puts on the wire, in order. */
  function Sends(w: World, cfg: Config): seq<Config> {
    NewlySent(w, Dispatch(w, cfg))
  }

  /** A call answered without a refresh sends its own request only. */
  lemma SendsDirect(w: World, cfg: Config)
    requires w.answers != []
    requires var req := Attach(w.session.accessToken, cfg);
             var answer := w.answers[0];
             (answer.Reply? && Http.IsSuccessStatus(answer.response.status)) || !TriggersRefresh(req, answer)
    ensures Sends(w, cfg) == [Attach(w.session.accessToken, cfg)]
  {
    var req := Attach(w.session.accessToken, cfg);
    assert Dispatch(w, cfg).world.sent == w.sent + [req];
  }

  /** The log grown over two stretches is what the first added, then what the second added. */
  lemma NewlyAfter(w: World, mid: World, r: Run)
    requires w.sent <= mid.sent <= r.world.sent
    ensures NewlySent(w, r) == mid.sent[|w.sent|..] + NewlySent(mid, r)
  {
  }

  /** A first 401: the call's own request goes out and the refresh is dispatched. */
  lemma RefreshStep(w: World, cfg: Config)
    requires w.answers != [] && TriggersRefresh(Attach(w.session.accessToken, cfg), w.answers[0])
    ensures var req := Attach(w.session.accessToken, cfg);
            var w1 := w.(sent := w.sent + [req], answers := w.answers[1..]);
            var refresh := Dispatch(w1, RefreshConfig);
            Dispatch(w, cfg) ==
              match refresh.outcome
              case Resolved(res) => Dispatch(Refreshed(refresh.world, res), ReplayOf(req, res))
              case Rejected(e) => Run(SignedOut(refresh.world), Rejected(e))
              case Exhausted => refresh
  {
  }

  /** A 401 whose refresh settles without a token: the call sends its own request, then the refresh's. */
  lemma SendsRefreshFailed(w: World, cfg: Config)
    requires w.answers != [] && TriggersRefresh(Attach(w.session.accessToken, cfg), w.answers[0])
    requires var req := Attach(w.session.accessToken, cfg);
             !Dispatch(w.(sent := w.sent + [req], answers := w.answers[1..]), RefreshConfig).outcome.Resolved?
    ensures var req := Attach(w.session.accessToken, cfg);
            Sends(w, cfg) == [req] + Sends(w.(sent := w.sent + [req], answers := w.answers[1..]), RefreshConfig)
  {
    var req := Attach(w.session.accessToken, cfg);
    var w1 := w.(sent := w.sent + [req], answers := w.answers[1..]);
    var refresh := Dispatch(w1, RefreshConfig);
    RefreshStep(w, cfg);
    assert Dispatch(w, cfg).world.sent == refresh.world.sent;
    NewlyAfter(w, w1, refresh);
    assert w1.sent[|w.sent|..] == [req];
  }

  /** A 401 whose refresh succeeds: the call sends its own request, the refresh's, then the replay's. */
  lemma SendsReplayed(w: World, cfg: Config)
    requires w.answers != [] && TriggersRefresh(Attach(w.session.accessToken, cfg), w.answers[0])
    requires var req := Attach(w.session.accessToken, cfg);
             Dispatch(w.(sent := w.sent + [req], answers := w.answers[1..]), RefreshConfig).outcome.Resolved?
    ensures var req := Attach(w.session.accessToken, cfg);
            var w1 := w.(sent := w.sent + [req], answers := w.answers[1..]);
            var refresh := Dispatch(w1, RefreshConfig);
            var res := refresh.outcome.response;
            Sends(w, cfg) == [req] + Sends(w1, RefreshConfig) + Sends(Refreshed(refresh.world, res), ReplayOf(req, res))
  {
    var req := Attach(w.session.accessToken, cfg);
    var w1 := w.(sent := w.sent + [req], answers := w.answers[1..]);
    var refresh := Dispatch(w1, RefreshConfig);
    var res := refresh.outcome.response;
    var w2 := Refreshed(refresh.world, res);
    var r2 := Dispatch(w2, ReplayOf(req, res));
    RefreshStep(w, cfg);
    NewlyAfter(w, w2, r2);
    NewlyAfter(w, w1, refresh);
    assert w1.sent[|w.sent|..] == [req];
  }

  /** A dispatch of a refresh request, however deeply it nests, only ever sends refresh requests. */
  lemma {:induction false} RefreshSendsOnlyRefresh(w: World, cfg: Config, url: string)
    requires cfg.url == RefreshUrl && url != RefreshUrl
    ensures SentTo(Sends(w, cfg), url) == 0
    decreases |w.answers|
  {
    if w.answers != [] {
      var req := Attach(w.session.accessToken, cfg);
      var answer := w.answers[0];
      var w1 := w.(sent := w.sent + [req], answers := w.answers[1..]);
      if (answer.Reply? && Http.IsSuccessStatus(answer.response.status)) || !TriggersRefresh(req, answer) {
        SendsDirect(w, cfg);
      } else {
        var refresh := Dispatch(w1, RefreshConfig);
        if refresh.outcome.Resolved? {
          SendsReplayed(w, cfg);
        } else {
          SendsRefreshFailed(w, cfg);
        }
        RefreshSendsOnlyRefresh(w1, RefreshConfig, url);
        SentToAppend([req], Sends(w1, RefreshConfig), url);
        if refresh.outcome.Resolved? {
          var res := refresh.outcome.response;
          RefreshSendsOnlyRefresh(Refreshed(refresh.world, res), ReplayOf(req, res), url);
          SentToAppend([req] + Sends(w1, RefreshConfig), Sends(Refreshed(refresh.world, res), ReplayOf(req, res)), url);
        }
      }
    }
  }

  /**
   * Any one original request is replayed at most once: its target receives at most two of the
   * requests the call sends, the first attempt and one replay, however the refreshes nest.
   */
  lemma {:induction false} ReplayedAtMostOnce(w: World, cfg: Config)
    requires cfg.url != RefreshUrl
    ensures SentTo(Sends(w, cfg), cfg.url) <= 2
  {
    if w.answers != [] {
      var req := Attach(w.session.accessToken, cfg);
      var answer := w.answers[0];
      var w1 := w.(sent := w.sent + [req], answers := w.answers[1..]);
      if (answer.Reply? && Http.IsSuccessStatus(answer.response.status)) || !TriggersRefresh(req, answer) {
        SendsDirect(w, cfg);
      } else {
        var refresh := Dispatch(w1, RefreshConfig);
        if refresh.outcome.Resolved? {
          SendsReplayed(w, cfg);
        } else {
          SendsRefreshFailed(w, cfg);
        }
        RefreshSendsOnlyRefresh(w1, RefreshConfig, cfg.url);
        SentToAppend([req], Sends(w1, RefreshConfig), cfg.url);
        if refresh.outcome.Resolved? {
          var res := refresh.outcome.response;
          RetriedSentOnce(Refreshed(refresh.world, res), ReplayOf(req, res));
          SentToAppend([req] + Sends(w1, RefreshConfig), Sends(Refreshed(refresh.world, res), ReplayOf(req, res)), cfg.url);
        }
      }
    }
  }

  /** Every answer in the script is a 401. */
  predicate All401(answers: seq<Answer>) {
    forall i :: 0 <= i < |answers| ==> answers[i].Reply? && answers[i].response.status == 401
  }

  /**
   * As written, the refresh POST goes back through the same interceptor with a fresh config, so a
   * refresh endpoint that keeps answering 401 triggers a refresh of the refresh, and so on: for
   * every length of the script, each 401 is spent on one more nested refresh, the call never
   * settles, the tokens are never cleared and the page never leaves.
   */
  lemma {:induction false} RefreshNestingUnbounded(w: World, cfg: Config)
    requires All401(w.answers) && !cfg.retry
    ensures var r := Dispatch(w, cfg);
            && r.outcome == Exhausted
            && r.world.answers == []
            && |r.world.sent| == |w.sent| + |w.answers|
            && r.world.session == w.session && r.world.location == w.location
    decreases |w.answers|
  {
    if w.answers != [] {
      var req := Attach(w.session.accessToken, cfg);
      var w1 := w.(sent := w.sent + [req], answers := w.answers[1..]);
      assert TriggersRefresh(req, w.answers[0]);
      RefreshNestingUnbounded(w1, RefreshConfig);
    }
  }

  /**
   * The catch around the refresh (axiosInstance.ts:38-42) is there to sign the user out when the
   * refresh fails, but a 401 on the refresh request never reaches it: the interceptor answers that
   * 401 with yet another refresh. This dispatch treats a 401 on the refresh endpoint as the refresh
   * failing, which is what that catch handles. Otherwise the same as `Dispatch`.
   */
  function DispatchExcludingRefresh(w: World, cfg: Config): (r: Run)
    ensures |r.world.answers| <= |w.answers|
    ensures w.sent <= r.world.sent
    decreases |w.answers|
  {
    if w.answers == [] then Run(w, Exhausted)
    else
      var req := Attach(w.session.accessToken, cfg);
      var answer := w.answers[0];
      var w1 := w.(sent := w.sent + [req], answers := w.answers[1..]);
      if answer.Reply? && Http.IsSuccessStatus(answer.response.status) then
        Run(w1, Resolved(answer.response))
      else if TriggersRefresh(req, answer) && req.url != RefreshUrl then
        var refresh := DispatchExcludingRefresh(w1, RefreshConfig);
        match refresh.outcome
        case Resolved(res) =>
          DispatchExcludingRefresh(Refreshed(refresh.world, res), ReplayOf(req, res))
        case Rejected(e) =>
          Run(SignedOut(refresh.world), Rejected(e))
        case Exhausted =>
          refresh
      else
        Run(w1, Rejected(Failure(req, answer)))
  }

  /** With the refresh endpoint excluded, a request needs at most three answers: original, refresh, replay. */
  lemma {:induction false} ExcludingRefreshIsBounded(w: World, cfg: Config)
    ensures var r := DispatchExcludingRefresh(w, cfg);
            |NewlySent(w, r)| <= 3 && (|w.answers| >= 3 ==> r.outcome != Exhausted)
  {
    var r := DispatchExcludingRefresh(w, cfg);
    if w.answers != [] {
      var req := Attach(w.session.accessToken, cfg);
      var answer := w.answers[0];
      var w1 := w.(sent := w.sent + [req], answers := w.answers[1..]);
      if !(answer.Reply? && Http.IsSuccessStatus(answer.response.status)) && TriggersRefresh(req, answer) && req.url != RefreshUrl {
        var refresh := DispatchExcludingRefresh(w1, RefreshConfig);
        assert |NewlySent(w1, refresh)| <= 1 && (|w1.answers| >= 1 ==> refresh.outcome != Exhausted);
        match refresh.outcome
        case Resolved(res) =>
          var w2 := Refreshed(refresh.world, res);
          var r2 := DispatchExcludingRefresh(w2, ReplayOf(req, res));
          assert |NewlySent(w2, r2)| <= 1 && (|w2.answers| >= 1 ==> r2.outcome != Exhausted);
          assert |NewlySent(w, r)| == 1 + |NewlySent(w1, refresh)| + |NewlySent(w2, r2)|;
        case Rejected(e) =>
        case Exhausted =>
      }
    }
  }

  /** With the refresh endpoint excluded, a refresh endpoint that keeps answering 401 signs the user out. */
  lemma {:induction false} ExcludingRefreshSignsOut(w: World, cfg: Config)
    requires All401(w.answers) && |w.answers| >= 2 && !cfg.retry && cfg.url != RefreshUrl
    ensures var refreshReq := Attach(w.session.accessToken, RefreshConfig);
            var r := DispatchExcludingRefresh(w, cfg);
            && r.outcome == Rejected(Failure(refreshReq, w.answers[1]))
            && r.world.session == Auth.AfterClearTokens(w.session)
            && r.world.location == SignInPath
            && r.world.answers == w.answers[2..]
  {
    var req := Attach(w.session.accessToken, cfg);
    var w1 := w.(sent := w.sent + [req], answers := w.answers[1..]);
    assert w1.answers[0] == w.answers[1];
  }

  /** The axios instance, bound to the global auth store and to the browser's location. */
  class Client {
    const auth: Auth.AuthStore
    var location: string
    var sent: seq<Config>
    var answers: seq<Answer>

    function State(): World
      reads this, auth
    {
      World(auth.Value(), location, sent, answers)
    }

    constructor (auth: Auth.AuthStore, location: string, answers: seq<Answer>)
      ensures this.auth == auth && State() == World(auth.Value(), location, [], answers)
    {
      this.auth := auth;
      this.location := location;
      this.sent := [];
      this.answers := answers;
    }

    /** `axiosInstance(cfg)`: both interceptors around one send, updating the config in place. */
    method Request(cfg: Config) returns (outcome: Outcome)
      modifies this, auth
      ensures Run(State(), outcome) == Dispatch(old(State()), cfg)
      decreases |answers|
    {
      if answers == [] {
        return Exhausted;
      }
      var req := cfg;
      if Truthy(auth.accessToken) {
        req := req.(authorization := Some(Bearer(auth.accessToken)));
      }
      var answer := answers[0];
      sent, answers := sent + [req], answers[1..];
      if answer.Reply? && Http.IsSuccessStatus(answer.response.status) {
        return Resolved(answer.response);
      }
      if !(answer.Reply? && answer.response.status == 401 && !req.retry) {
        return Rejected(Failure(req, answer));
      }
      req := req.(retry := true);
      var refreshed := Request(RefreshConfig);
      match refreshed
      case Resolved(res) =>
        auth.SetTokens(res.accessToken);
        req := req.(authorization := Some(Bearer(res.accessToken)));
        outcome := Request(req);
      case Rejected(e) =>
        auth.ClearTokens();
        location := SignInPath;
        outcome := Rejected(e);
      case Exhausted =>
        outcome := Exhausted;
    }
  }
}
