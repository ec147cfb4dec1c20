/** `login`, `logout` and `status`: the user-code display, the device-flow
    polling decisions, and the classification of the stored session. The
    HTTP calls, the ticker, the timeout channel, the browser launch and
    saving the configuration are left out; each poll's answer and the clock
    reading at that moment are parameters. */
module Login {
  import opened Wrappers
  import opened Strings
  import opened Configuration

  // ---------------------------------------------------------------------
  // User code

  /** formatUserCode: an eight-character code is shown as two groups of
      four joined by a hyphen; any other code is shown as it is. */
  function FormatUserCode(code: string): (r: string)
    ensures |code| == 8 ==> |r| == 9 && r[4] == '-' && r[..4] == code[..4] && r[5..] == code[4..]
    ensures |code| != 8 ==> r == code
  {
    if |code| == 8 then code[..4] + "-" + code[4..] else code
  }

  /** Reading a displayed code back: the hyphen of a grouped code dropped. */
  function UngroupUserCode(shown: string): (r: string)
    ensures |shown| == 9 && shown[4] == '-' ==> |r| == 8
  {
    if |shown| == 9 && shown[4] == '-' then shown[..4] + shown[5..] else shown
  }

  /** Dropping the inserted hyphen gives back the eight-character code. */
  lemma UngroupFormat(code: string)
    requires |code| == 8
    ensures UngroupUserCode(FormatUserCode(code)) == code
  {
    var r := FormatUserCode(code);
    assert r[..4] + r[5..] == code[..4] + code[4..];
    assert code[..4] + code[4..] == code;
  }

  /** Every grouped display is the display of the code read back from it. */
  lemma FormatUngroup(shown: string)
    requires |shown| == 9 && shown[4] == '-'
    ensures FormatUserCode(UngroupUserCode(shown)) == shown
  {
    var code := UngroupUserCode(shown);
    assert code[..4] == shown[..4] && code[4..] == shown[5..];
    assert shown == shown[..4] + "-" + shown[5..];
  }

  /** Codes of any other length are shown unchanged, so formatting twice is
      formatting once. */
  lemma FormatIdempotent(code: string)
    ensures FormatUserCode(FormatUserCode(code)) == FormatUserCode(code)
  {
  }

  // ---------------------------------------------------------------------
  // Polling

  /** The shortest period between two polls, in seconds. */
  const MinPollInterval := 5

  /** What a `slow_down` answer adds to the period, in seconds. */
  const SlowDownStep := 5

  const Pending := "authorization_pending"
  const SlowDown := "slow_down"

  /** The polling period for the interval the server asked for: never
      shorter than the minimum. */
  function PollInterval(interval: int): (r: int)
    ensures r >= MinPollInterval
    ensures r == interval || r == MinPollInterval
    ensures interval >= MinPollInterval ==> r == interval
  {
    if interval < MinPollInterval then MinPollInterval else interval
  }

  datatype User = User(id: string, email: string, name: string, role: string)

  /** The body of a poll answer; `expiresIn` is in seconds. */
  datatype PollResponse = PollResponse(status: string, accessToken: string, expiresIn: int, user: User)

  /** One poll: whether the request failed, the body the client decoded
      (the client always hands one back, even on failure), and the clock
      reading when the answer arrived. */
  datatype Reply = Reply(failed: bool, response: PollResponse, at: Instant)

  /** What the loop does after a poll: keep polling with the given period,
      give up with an error, or store the credentials. */
  datatype Step = KeepPolling(period: int) | Fail(reason: string) | Authenticated(config: Config)

  /** The credentials a successful answer leaves in the configuration: the
      token, an expiry `expiresIn` seconds after `now`, and the user's id
      and email; everything else is kept. */
  function StoreCredentials(c: Config, resp: PollResponse, now: Instant): (r: Config)
    ensures r.auth.accessToken == resp.accessToken
    ensures r.auth.tokenExpiry - now == resp.expiresIn
    ensures r.auth.userID == resp.user.id && r.auth.email == resp.user.email
    ensures r.auth.refreshToken == c.auth.refreshToken
    ensures r.mcp == c.mcp && r.skills == c.skills
  {
    c.(auth := c.auth.(accessToken := resp.accessToken,
                       tokenExpiry := now + resp.expiresIn,
                       userID := resp.user.id,
                       email := resp.user.email))
  }

  /** The decision for one poll, given the base period `base` and the
      ticker's current `period`. A failed request goes on only while the
      authorization is pending; a successful one goes on for pending and
      `slow_down` (the latter resetting the ticker to the base period plus
      five seconds), and any other status counts as success. */
  function PollStep(base: int, period: int, reply: Reply, c: Config): (r: Step)
    ensures r.Fail? <==> reply.failed && reply.response.status != Pending
    ensures r.Authenticated? <==>
              !reply.failed && reply.response.status != Pending && reply.response.status != SlowDown
    ensures r.KeepPolling? && reply.response.status == SlowDown ==> r.period == base + SlowDownStep
    ensures r.KeepPolling? && reply.response.status != SlowDown ==> r.period == period
    ensures r.Authenticated? ==> r.config == StoreCredentials(c, reply.response, reply.at)
  {
    var status := reply.response.status;
    if reply.failed then
      if status == Pending then KeepPolling(period)
      else Fail("failed to poll device flow")
    else if status == Pending || status == SlowDown then
      KeepPolling(if status == SlowDown then base + SlowDownStep else period)
    else
      Authenticated(StoreCredentials(c, reply.response, reply.at))
  }

  /** The loop over a series of poll answers, starting from the ticker
      period `period`: the first step that is not "keep polling", or the
      period in force after the last answer. */
  function Replay(base: int, period: int, replies: seq<Reply>, c: Config): Step
    decreases |replies|
  {
    if replies == [] then KeepPolling(period)
    else
      match PollStep(base, period, replies[0], c)
      case KeepPolling(next) => Replay(base, next, replies[1..], c)
      case other => other
  }

  /** `slow_down` is not cumulative: however many answers arrive, a loop
      that started at the base period is still polling at the base period
      or at the base period plus one step. */
  lemma {:induction false} SlowDownNotCumulative(base: int, period: int, replies: seq<Reply>, c: Config)
    requires period == base || period == base + SlowDownStep
    ensures Replay(base, period, replies, c).KeepPolling? ==>
              Replay(base, period, replies, c).period in {base, base + SlowDownStep}
    decreases |replies|
  {
    if replies != [] {
      var s := PollStep(base, period, replies[0], c);
      if s.KeepPolling? {
        SlowDownNotCumulative(base, s.period, replies[1..], c);
      }
    }
  }

  /** Any run of `slow_down` answers, however long, leaves the period at the
      base plus one step. */
  lemma {:induction false} RepeatedSlowDown(base: int, period: int, replies: seq<Reply>, c: Config)
    requires |replies| >= 1
    requires forall i :: 0 <= i < |replies| ==> !replies[i].failed && replies[i].response.status == SlowDown
    ensures Replay(base, period, replies, c) == KeepPolling(base + SlowDownStep)
    decreases |replies|
  {
    if |replies| > 1 {
      RepeatedSlowDown(base, base + SlowDownStep, replies[1..], c);
    }
  }

  /** A pending answer never ends the loop, whether or not the request failed. */
  lemma PendingKeepsPolling(base: int, period: int, reply: Reply, c: Config)
    requires reply.response.status == Pending
    ensures PollStep(base, period, reply, c) == KeepPolling(period)
  {
  }

  // ---------------------------------------------------------------------
  // Session state

  /** `login` stops at once, reporting the stored user, exactly when the
      stored session is logged in and not expired. */
  predicate AlreadyLoggedIn(c: Config, now: Instant) {
    IsLoggedIn(c) && !IsTokenExpired(c, now)
  }

  /** A login that ends with a token valid for a positive time, at a real
      clock reading, makes the next `login` at that moment stop at once. */
  lemma AuthenticatedIsLoggedIn(base: int, period: int, reply: Reply, c: Config)
    requires PollStep(base, period, reply, c).Authenticated?
    requires reply.response.accessToken != "" && reply.response.expiresIn > 0 && reply.at > 0
    ensures AlreadyLoggedIn(PollStep(base, period, reply, c).config, reply.at)
  {
  }

  /** A success answer without a token is stored all the same, and leaves
      the session logged out. */
  lemma EmptyTokenNotLoggedIn(base: int, period: int, reply: Reply, c: Config)
    requires PollStep(base, period, reply, c).Authenticated?
    requires reply.response.accessToken == ""
    ensures !IsLoggedIn(PollStep(base, period, reply, c).config)
  {
  }

  /** What `status` reports. */
  datatype Status = NotLoggedIn | SessionExpired | LoggedIn

  /** runStatus: logged out, logged in with an expired token, or logged in. */
  function ClassifyStatus(c: Config, now: Instant): (r: Status)
    ensures r == NotLoggedIn <==> !IsLoggedIn(c)
    ensures r == SessionExpired <==> IsLoggedIn(c) && IsTokenExpired(c, now)
    ensures r == LoggedIn <==> AlreadyLoggedIn(c, now)
  {
    if !IsLoggedIn(c) then NotLoggedIn
    else if IsTokenExpired(c, now) then SessionExpired
    else LoggedIn
  }

  /** runLogout: nothing to save when not logged in; otherwise the cleared
      configuration. */
  function Logout(c: Config): (r: Option<Config>)
    ensures r.None? <==> !IsLoggedIn(c)
    ensures r.Some? ==> !IsLoggedIn(r.value) && r.value.mcp == c.mcp && r.value.skills == c.skills
    ensures r.Some? ==> r.value == Clear(c) && r.value.auth == EmptyAuth
  {
    if !IsLoggedIn(c) then None else Some(Clear(c))
  }

  /** After logging out, `status` reports "not logged in" and `login` goes
      through the device flow again. */
  lemma LogoutThenStatus(c: Config, now: Instant)
    requires Logout(c).Some?
    ensures ClassifyStatus(Logout(c).value, now) == NotLoggedIn
    ensures !AlreadyLoggedIn(Logout(c).value, now)
    ensures Logout(Logout(c).value).None?
  {
  }
}
