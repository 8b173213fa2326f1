/** The CRM webservice client: session handling with an expiring session name,
    and the create / retrieve / comment-query operations with their one retry.

    The remote store and the wall clock are outside the model: an `Environment`
    logs every request and answers it by an arbitrary function of the request
    history, and reads the clock as a function of that history too. */
module Crm {
  import opened Wrappers
  import opened Text

  /** One row of the ModComments query result. A missing `commentcontent` or
      `createdtime` is "". */
  datatype CommentRow = CommentRow(content: string, createdTime: string)

  /** The webservice operations the client issues. */
  datatype Request =
    | GetChallenge(username: string)
    | Login(username: string, accessKey: string)
    | Create(session: string, element: map<string, string>)
    | Retrieve(session: string, id: string)
    | Query(session: string, relatedTo: string)
    | Update(session: string, element: map<string, string>)

  /** The `result` of a successful reply. */
  datatype Answer =
    | Challenge(token: string)
    | LoggedIn(sessionName: string)
    | Record(fields: map<string, string>)
    | Rows(rows: seq<CommentRow>)

  /** A decoded reply: `success` with its result, or a failure carrying `str(response)`. */
  datatype Reply = Ok(answer: Answer) | Rejected(text: string)

  /** How the outside world behaves: the reply to each request given the requests
      before it, and the value of `time.time()` after a given request history. */
  datatype Behaviour = Behaviour(
    respond: (seq<Request>, Request) -> Reply,
    clock: seq<Request> -> int)

  /** `username`, `access_key`, and the MD5 hex digest used to sign the challenge. */
  datatype Credentials = Credentials(username: string, accessKey: string, md5Hex: string -> string)

  /** The client's fields and the requests sent so far. */
  datatype St = St(sessionName: Option<string>, sessionExpiry: int, sent: seq<Request>)

  /** Seconds a session is trusted after a login, whatever the server says. */
  const SessionLifetime := 3600

  /** The error text standing for a KeyError/TypeError on a wrongly shaped result. */
  const Malformed := "malformed reply"

  const ChallengeFailed := "Failed to get challenge token"

  // ---------------------------------------------------------------------------
  // Request logs
  // ---------------------------------------------------------------------------

  predicate Extends(st: St, st': St)
  {
    |st.sent| <= |st'.sent| && st'.sent[..|st.sent|] == st.sent
  }

  function Added(st: St, st': St): seq<Request>
    requires Extends(st, st')
  {
    st'.sent[|st.sent|..]
  }

  function CreateCount(s: seq<Request>): nat
  {
    if s == [] then 0 else CreateCount(s[..|s| - 1]) + (if s[|s| - 1].Create? then 1 else 0)
  }

  predicate NoCreates(s: seq<Request>)
  {
    forall i :: 0 <= i < |s| ==> !s[i].Create?
  }

  lemma {:induction false} NoCreatesCount(s: seq<Request>)
    requires NoCreates(s)
    ensures CreateCount(s) == 0
  {
    if s != [] {
      NoCreatesCount(s[..|s| - 1]);
    }
  }

  lemma {:induction false} CreateCountAppend(a: seq<Request>, b: seq<Request>)
    ensures CreateCount(a + b) == CreateCount(a) + CreateCount(b)
    decreases |b|
  {
    if b == [] {
      assert a + b == a;
    } else {
      CreateCountAppend(a, b[..|b| - 1]);
      assert (a + b)[..|a + b| - 1] == a + b[..|b| - 1];
    }
  }

  /** Every create request in `s` carries `element`. */
  predicate CreatesCarry(s: seq<Request>, element: map<string, string>)
  {
    forall i :: 0 <= i < |s| && s[i].Create? ==> s[i].element == element
  }

  lemma NoCreatesAppend(a: seq<Request>, b: seq<Request>)
    requires NoCreates(a) && NoCreates(b)
    ensures NoCreates(a + b)
  {
    forall i | 0 <= i < |a + b| ensures !(a + b)[i].Create? {
      if i >= |a| { assert (a + b)[i] == b[i - |a|]; }
    }
  }

  lemma NoCreatesCarry(s: seq<Request>, element: map<string, string>)
    requires NoCreates(s)
    ensures CreatesCarry(s, element)
  {
  }

  lemma CarryAppend(a: seq<Request>, b: seq<Request>, element: map<string, string>)
    requires CreatesCarry(a, element) && CreatesCarry(b, element)
    ensures CreatesCarry(a + b, element)
  {
    forall i | 0 <= i < |a + b| && (a + b)[i].Create? ensures (a + b)[i].element == element {
      if i >= |a| { assert (a + b)[i] == b[i - |a|]; }
    }
  }

  lemma ExtendsTrans(a: St, b: St, c: St)
    requires Extends(a, b) && Extends(b, c)
    ensures Extends(a, c) && Added(a, c) == Added(a, b) + Added(b, c)
  {
    assert c.sent[..|a.sent|] == c.sent[..|b.sent|][..|a.sent|];
  }

  /** Whether a rejected reply mentions `word`, compared in lower case. */
  predicate Mentions(reply: Reply, word: string)
  {
    reply.Rejected? && Contains(Lower(reply.text), word)
  }

  /** The texts a failed `_login` raises with. */
  predicate LoginError(e: string)
  {
    e == ChallengeFailed || e == Malformed || "CRM login failed: " <= e
  }

  // ---------------------------------------------------------------------------
  // Session (specification of CrmClient's state changes)
  // ---------------------------------------------------------------------------

  /** One HTTP exchange: the request is logged and answered. */
  function Exchange(b: Behaviour, st: St, req: Request): (Reply, St)
  {
    (b.respond(st.sent, req), st.(sent := st.sent + [req]))
  }

  /** `_get_challenge`. */
  function ChallengeSpec(c: Credentials, b: Behaviour, st: St): (Result<string>, St)
  {
    var (reply, st1) := Exchange(b, st, GetChallenge(c.username));
    match reply
    case Ok(Challenge(token)) => (Success(token), st1)
    case Ok(_) => (Failure(Malformed), st1)
    case Rejected(_) => (Failure(ChallengeFailed), st1)
  }

  /** `_login`: fetch a challenge, trust the session for an hour from now, then log in. */
  function LoginSpec(c: Credentials, b: Behaviour, st: St): (Result<string>, St)
  {
    var (ch, st1) := ChallengeSpec(c, b, st);
    if ch.Failure? then (Failure(ch.error), st1)
    else
      var st2 := st1.(sessionExpiry := b.clock(st1.sent) + SessionLifetime);
      var (reply, st3) := Exchange(b, st2, Login(c.username, c.md5Hex(ch.value + c.accessKey)));
      match reply
      case Ok(LoggedIn(name)) => (Success(name), st3.(sessionName := Some(name)))
      case Ok(_) => (Failure(Malformed), st3)
      case Rejected(text) => (Failure("CRM login failed: " + text), st3)
  }

  predicate HasSession(st: St)
  {
    st.sessionName.Some? && st.sessionName.value != ""
  }

  /** `not self.session_name or time.time() >= self.session_expiry`. */
  predicate NeedsLogin(b: Behaviour, st: St)
  {
    !HasSession(st) || b.clock(st.sent) >= st.sessionExpiry
  }

  /** `get_session`: log in again exactly when there is no session or it has expired. */
  function SessionSpec(c: Credentials, b: Behaviour, st: St): (Result<string>, St)
  {
    if NeedsLogin(b, st) then LoginSpec(c, b, st) else (Success(st.sessionName.value), st)
  }

  /** `_login` sends a challenge request, then a login request only when a challenge was
      obtained; it moves the expiry to clock + 3600 as soon as a challenge is obtained, even
      if the login then fails, and names the session only on success. */
  lemma LoginFacts(c: Credentials, b: Behaviour, st: St)
    ensures var out := LoginSpec(c, b, st);
      && Extends(st, out.1) && 1 <= |Added(st, out.1)| <= 2
      && Added(st, out.1)[0] == GetChallenge(c.username)
      && (|Added(st, out.1)| == 2 ==> Added(st, out.1)[1].Login? && Added(st, out.1)[1].username == c.username)
      && (|Added(st, out.1)| == 2 ==> out.1.sessionExpiry == b.clock(st.sent + [GetChallenge(c.username)]) + SessionLifetime)
      && (|Added(st, out.1)| == 1 ==> out.1.sessionExpiry == st.sessionExpiry && out.0.Failure?)
      && (out.0.Success? ==> out.1.sessionName == Some(out.0.value))
      && (out.0.Failure? ==> out.1.sessionName == st.sessionName && LoginError(out.0.error))
      && NoCreates(Added(st, out.1))
  {
  }

  /** `get_session` reuses a live session without any request, and otherwise logs in. */
  lemma SessionFacts(c: Credentials, b: Behaviour, st: St)
    ensures var out := SessionSpec(c, b, st);
      && (!NeedsLogin(b, st) ==> out == (Success(st.sessionName.value), st))
      && (NeedsLogin(b, st) ==> Extends(st, out.1) && |Added(st, out.1)| >= 1 && Added(st, out.1)[0] == GetChallenge(c.username))
      && Extends(st, out.1) && NoCreates(Added(st, out.1))
      && (out.0.Success? ==> out.1.sessionName == Some(out.0.value))
      && (out.0.Failure? ==> LoginError(out.0.error))
  {
    if NeedsLogin(b, st) {
      LoginFacts(c, b, st);
    }
  }

  /** The reply the server gave to the `k`-th request of the log `log`. */
  function ReplyTo(b: Behaviour, log: seq<Request>, k: int): Reply
    requires 0 <= k < |log|
  {
    b.respond(log[..k], log[k])
  }

  /** A successful login reply, naming a session. */
  predicate LoggedIn(reply: Reply)
  {
    reply.Ok? && reply.answer.LoggedIn?
  }

  /** A reply depends only on the requests before it, so a longer log keeps it. */
  lemma ReplyToPrefix(b: Behaviour, log: seq<Request>, log': seq<Request>, k: int)
    requires 0 <= k < |log| <= |log'| && log'[..|log|] == log
    ensures ReplyTo(b, log', k) == ReplyTo(b, log, k)
  {
    assert log'[..k] == log[..k];
  }

  /** What `_login` makes of the replies it gets: a rejected challenge raises "Failed to get
      challenge token" with nothing else sent; a token is signed into one login request; a
      rejected login raises "CRM login failed: " and the reply; and the login succeeds exactly
      when the login reply names a session, which becomes the client's session. */
  lemma LoginReplies(c: Credentials, b: Behaviour, st: St)
    ensures var out := LoginSpec(c, b, st); var log := out.1.sent; var n := |st.sent|;
      && n < |log| <= n + 2 && log[..n] == st.sent && log[n] == GetChallenge(c.username)
      && (ReplyTo(b, log, n).Rejected? ==> |log| == n + 1 && out.0 == Failure(ChallengeFailed))
      && (|log| == n + 2 <==> ReplyTo(b, log, n).Ok? && ReplyTo(b, log, n).answer.Challenge?)
      && (|log| == n + 2 ==>
            log[n + 1] == Login(c.username, c.md5Hex(ReplyTo(b, log, n).answer.token + c.accessKey)))
      && (|log| == n + 2 && ReplyTo(b, log, n + 1).Rejected? ==>
            out.0 == Failure("CRM login failed: " + ReplyTo(b, log, n + 1).text))
      && (out.0.Success? <==> |log| == n + 2 && LoggedIn(ReplyTo(b, log, n + 1)))
      && (out.0.Success? ==>
            out.0.value == ReplyTo(b, log, n + 1).answer.sessionName && out.1.sessionName == Some(out.0.value))
  {
    var (ch, st1) := ChallengeSpec(c, b, st);
    var n := |st.sent|;
    assert st1.sent[..n] == st.sent;
    if ch.Success? {
      var st2 := st1.(sessionExpiry := b.clock(st1.sent) + SessionLifetime);
      var req := Login(c.username, c.md5Hex(ch.value + c.accessKey));
      var log := st2.sent + [req];
      assert log[..n + 1] == st1.sent;
      assert log[..n] == st.sent;
    }
  }

  /** The requests of one webservice call from position `k` of `log` on: `ask(session)`; when its
      reply satisfies `retry`, a fresh `_login` (the challenge first) and, only if that login named
      a session, `ask` once more under the new name. Nothing else is sent. */
  predicate RetriedOnce(c: Credentials, b: Behaviour, log: seq<Request>, k: nat, session: string,
                        ask: string -> Request, retry: Reply -> bool)
  {
    && k < |log| && log[k] == ask(session)
    && if !retry(ReplyTo(b, log, k)) then |log| == k + 1
       else
         && k + 2 <= |log| <= k + 4 && log[k + 1] == GetChallenge(c.username)
         && (k + 3 <= |log| ==> log[k + 2].Login?)
         && (|log| == k + 4 <==> k + 3 <= |log| && LoggedIn(ReplyTo(b, log, k + 2)))
         && (|log| == k + 4 ==> log[k + 3] == ask(ReplyTo(b, log, k + 2).answer.sessionName))
  }

  /** The retry's login as seen from the end of the whole call: the log of the login is a prefix. */
  lemma RetryLogin(c: Credentials, b: Behaviour, st: St, log: seq<Request>)
    requires var st2 := LoginSpec(c, b, st).1; |st2.sent| <= |log| && log[..|st2.sent|] == st2.sent
    ensures var out := LoginSpec(c, b, st); var n := |st.sent|;
      && n + 1 <= |out.1.sent| <= n + 2 && log[n] == GetChallenge(c.username)
      && (n + 2 <= |out.1.sent| ==> log[n + 1].Login?)
      && (out.0.Success? <==> n + 2 <= |log| && |out.1.sent| == n + 2 && LoggedIn(ReplyTo(b, log, n + 1)))
      && (out.0.Success? ==> out.0.value == ReplyTo(b, log, n + 1).answer.sessionName)
  {
    var out := LoginSpec(c, b, st);
    LoginReplies(c, b, st);
    var n := |st.sent|;
    assert log[n] == out.1.sent[n];
    if |out.1.sent| == n + 2 {
      assert log[n + 1] == out.1.sent[n + 1];
      ReplyToPrefix(b, out.1.sent, log, n + 1);
    }
  }

  // ---------------------------------------------------------------------------
  // Operations
  // ---------------------------------------------------------------------------

  function CreateOutcome(reply: Reply): Result<map<string, string>>
  {
    match reply
    case Ok(Record(fields)) => Success(fields)
    case Ok(_) => Failure(Malformed)
    case Rejected(text) => Failure("Failed to create lead: " + text)
  }

  /** The retry of `create_lead`: a fresh login, then the create again. */
  function CreateRetry(c: Credentials, b: Behaviour, st: St, element: map<string, string>): (out: (Result<map<string, string>>, St))
    ensures Extends(st, out.1) && CreateCount(Added(st, out.1)) <= 1
    ensures out.0.Failure? ==> LoginError(out.0.error) || "Failed to create lead: " <= out.0.error
  {
    var (s, st1) := LoginSpec(c, b, st);
    LoginFacts(c, b, st);
    NoCreatesCount(Added(st, st1));
    if s.Failure? then (Failure(s.error), st1)
    else
      var (reply, st2) := Exchange(b, st1, Create(s.value, element));
      ExtendsTrans(st, st1, st2);
      CreateCountAppend(Added(st, st1), Added(st1, st2));
      (CreateOutcome(reply), st2)
  }

  /** The first create of `create_lead` under session `session`, and the retry if it is rejected as "invalid". */
  function CreatePost(c: Credentials, b: Behaviour, st: St, session: string, element: map<string, string>): (out: (Result<map<string, string>>, St))
    ensures Extends(st, out.1) && CreateCount(Added(st, out.1)) <= 2
    ensures out.0.Failure? ==> LoginError(out.0.error) || "Failed to create lead: " <= out.0.error
  {
    var (reply, st1) := Exchange(b, st, Create(session, element));
    assert CreateCount(Added(st, st1)) == 1;
    if Mentions(reply, "invalid") then
      var out := CreateRetry(c, b, st1, element);
      ExtendsTrans(st, st1, out.1);
      CreateCountAppend(Added(st, st1), Added(st1, out.1));
      out
    else (CreateOutcome(reply), st1)
  }

  /** `create_lead`: one create, and a second one after a fresh login when the first is rejected as "invalid". */
  function CreateSpec(c: Credentials, b: Behaviour, st: St, element: map<string, string>): (out: (Result<map<string, string>>, St))
    ensures Extends(st, out.1) && CreateCount(Added(st, out.1)) <= 2
    ensures out.0.Failure? ==> LoginError(out.0.error) || "Failed to create lead: " <= out.0.error
  {
    var (s, st1) := SessionSpec(c, b, st);
    SessionFacts(c, b, st);
    NoCreatesCount(Added(st, st1));
    if s.Failure? then (Failure(s.error), st1)
    else
      var out := CreatePost(c, b, st1, s.value, element);
      ExtendsTrans(st, st1, out.1);
      CreateCountAppend(Added(st, st1), Added(st1, out.1));
      out
  }

  lemma CreateRetryCarries(c: Credentials, b: Behaviour, st: St, element: map<string, string>)
    ensures CreatesCarry(Added(st, CreateRetry(c, b, st, element).1), element)
  {
    var (s, st1) := LoginSpec(c, b, st);
    LoginFacts(c, b, st);
    NoCreatesCarry(Added(st, st1), element);
    if s.Success? {
      var (reply, st2) := Exchange(b, st1, Create(s.value, element));
      ExtendsTrans(st, st1, st2);
      CarryAppend(Added(st, st1), Added(st1, st2), element);
    }
  }

  lemma CreatePostCarries(c: Credentials, b: Behaviour, st: St, session: string, element: map<string, string>)
    ensures CreatesCarry(Added(st, CreatePost(c, b, st, session, element).1), element)
  {
    var (reply, st1) := Exchange(b, st, Create(session, element));
    if Mentions(reply, "invalid") {
      var out := CreateRetry(c, b, st1, element);
      CreateRetryCarries(c, b, st1, element);
      ExtendsTrans(st, st1, out.1);
      CarryAppend(Added(st, st1), Added(st1, out.1), element);
    }
  }

  /** Both attempts of `create_lead` post the same element. */
  lemma CreateSendsOneElement(c: Credentials, b: Behaviour, st: St, element: map<string, string>)
    ensures CreatesCarry(Added(st, CreateSpec(c, b, st, element).1), element)
  {
    var (s, st1) := SessionSpec(c, b, st);
    SessionFacts(c, b, st);
    NoCreatesCarry(Added(st, st1), element);
    if s.Success? {
      var out := CreatePost(c, b, st1, s.value, element);
      CreatePostCarries(c, b, st1, s.value, element);
      ExtendsTrans(st, st1, out.1);
      CarryAppend(Added(st, st1), Added(st1, out.1), element);
    }
  }

  /** What `create_lead` returns, read off the log its call ended with: when the last request is
      the create, its reply decides (a rejection raises "Failed to create lead: " and the reply,
      a record is returned); otherwise the retry's login failed and its error is raised. */
  predicate CreateAnswered(b: Behaviour, log: seq<Request>, r: Result<map<string, string>>)
    requires log != []
  {
    var last := ReplyTo(b, log, |log| - 1);
    if log[|log| - 1].Create? then
      && (last.Rejected? ==> r == Failure("Failed to create lead: " + last.text))
      && (r.Success? <==> last.Ok? && last.answer.Record?)
      && (r.Success? ==> r.value == last.answer.fields)
    else r.Failure? && LoginError(r.error)
  }

  lemma {:induction false} CreateCountOne(x: Request)
    ensures CreateCount([x]) == (if x.Create? then 1 else 0)
  {
    assert [x][..0] == [];
  }

  /** The retry of `create_lead` alone: a fresh login (the challenge first), then one create under
      the new session exactly when that login named one. */
  lemma CreateRetryRule(c: Credentials, b: Behaviour, st: St, element: map<string, string>)
    ensures var out := CreateRetry(c, b, st, element); var log := out.1.sent; var n := |st.sent|;
      && Extends(st, out.1) && n + 1 <= |log| <= n + 3 && log[n] == GetChallenge(c.username)
      && (n + 2 <= |log| ==> log[n + 1].Login?)
      && (|log| == n + 3 <==> n + 2 <= |log| && LoggedIn(ReplyTo(b, log, n + 1)))
      && (|log| == n + 3 ==> log[n + 2] == Create(ReplyTo(b, log, n + 1).answer.sessionName, element))
      && CreateAnswered(b, log, out.0)
      && CreateCount(Added(st, out.1)) == (if |log| == n + 3 then 1 else 0)
  {
    var out := CreateRetry(c, b, st, element);
    var (s, st1) := LoginSpec(c, b, st);
    LoginFacts(c, b, st);
    NoCreatesCount(Added(st, st1));
    RetryLogin(c, b, st, out.1.sent);
    if s.Success? {
      var (reply, st2) := Exchange(b, st1, Create(s.value, element));
      CreateCountOne(Create(s.value, element));
      assert Added(st1, st2) == [Create(s.value, element)];
      ExtendsTrans(st, st1, st2);
      CreateCountAppend(Added(st, st1), Added(st1, st2));
    }
  }

  /** The retry of `create_lead`, from its first create on: the create; one more create after a
      fresh login exactly when the first is rejected as "invalid" and that login succeeds; the
      last create's reply is the answer, so any rejection of it fails. */
  lemma CreatePostRule(c: Credentials, b: Behaviour, st: St, session: string, element: map<string, string>)
    ensures var out := CreatePost(c, b, st, session, element); var n := |st.sent|;
      && Extends(st, out.1)
      && RetriedOnce(c, b, out.1.sent, n, session, s => Create(s, element), r => Mentions(r, "invalid"))
      && CreateAnswered(b, out.1.sent, out.0)
      && CreateCount(Added(st, out.1)) == (if |out.1.sent| == n + 4 then 2 else 1)
  {
    var out := CreatePost(c, b, st, session, element);
    var n := |st.sent|;
    var (reply, st1) := Exchange(b, st, Create(session, element));
    assert out.1.sent[..n] == st.sent;
    CreateCountOne(Create(session, element));
    assert Added(st, st1) == [Create(session, element)];
    if Mentions(reply, "invalid") {
      CreateRetryRule(c, b, st1, element);
      ExtendsTrans(st, st1, out.1);
      CreateCountAppend(Added(st, st1), Added(st1, out.1));
    }
  }

  /** `create_lead`: a failed `get_session` raises its login error with no create sent; otherwise
      the call is `CreatePostRule`'s from the first create on, under the session obtained. */
  lemma CreateLeadRule(c: Credentials, b: Behaviour, st: St, element: map<string, string>)
    ensures var (s, st1) := SessionSpec(c, b, st); var out := CreateSpec(c, b, st, element);
      && (s.Failure? ==> out.0.Failure? && LoginError(out.0.error) && CreateCount(Added(st, out.1)) == 0)
      && (s.Success? ==>
            && Extends(st1, out.1)
            && RetriedOnce(c, b, out.1.sent, |st1.sent|, s.value, s => Create(s, element), r => Mentions(r, "invalid"))
            && CreateAnswered(b, out.1.sent, out.0)
            && CreateCount(Added(st, out.1)) == (if |out.1.sent| == |st1.sent| + 4 then 2 else 1))
  {
    var (s, st1) := SessionSpec(c, b, st);
    SessionFacts(c, b, st);
    NoCreatesCount(Added(st, st1));
    if s.Success? {
      var out := CreatePost(c, b, st1, s.value, element);
      CreatePostRule(c, b, st1, s.value, element);
      ExtendsTrans(st, st1, out.1);
      CreateCountAppend(Added(st, st1), Added(st1, out.1));
    }
  }

  function RetrieveOutcome(reply: Reply, id: string): Result<map<string, string>>
  {
    match reply
    case Ok(Record(fields)) => Success(fields)
    case Ok(_) => Failure(Malformed)
    case Rejected(text) => Failure("Failed retrieving lead " + id + ": " + text)
  }

  /** The retry of `get_lead`: a fresh login, then the retrieve again. */
  function RetrieveRetry(c: Credentials, b: Behaviour, st: St, id: string): (Result<map<string, string>>, St)
  {
    var (s, st1) := LoginSpec(c, b, st);
    if s.Failure? then (Failure(s.error), st1)
    else
      var (reply, st2) := Exchange(b, st1, Retrieve(s.value, id));
      (RetrieveOutcome(reply, id), st2)
  }

  /** The first retrieve of `get_lead` under `session`, and the retry if it is rejected with "invalid" or "session". */
  function RetrievePost(c: Credentials, b: Behaviour, st: St, session: string, id: string): (Result<map<string, string>>, St)
  {
    var (reply, st1) := Exchange(b, st, Retrieve(session, id));
    if Mentions(reply, "invalid") || Mentions(reply, "session") then
      RetrieveRetry(c, b, st1, id)
    else (RetrieveOutcome(reply, id), st1)
  }

  /** `get_lead`: retried once after a fresh login when rejected with "invalid" or "session". */
  function RetrieveSpec(c: Credentials, b: Behaviour, st: St, id: string): (Result<map<string, string>>, St)
  {
    var (s, st1) := SessionSpec(c, b, st);
    if s.Failure? then (Failure(s.error), st1)
    else
      RetrievePost(c, b, st1, s.value, id)
  }

  lemma RetrieveRetryFacts(c: Credentials, b: Behaviour, st: St, id: string)
    ensures var out := RetrieveRetry(c, b, st, id);
      && Extends(st, out.1) && NoCreates(Added(st, out.1))
      && (out.0.Failure? ==> LoginError(out.0.error) || ("Failed retrieving lead " + id + ": ") <= out.0.error)
  {
    var (s, st1) := LoginSpec(c, b, st);
    LoginFacts(c, b, st);
    if s.Success? {
      var (reply, st2) := Exchange(b, st1, Retrieve(s.value, id));
      ExtendsTrans(st, st1, st2);
      NoCreatesAppend(Added(st, st1), Added(st1, st2));
    }
  }

  lemma RetrievePostFacts(c: Credentials, b: Behaviour, st: St, session: string, id: string)
    ensures var out := RetrievePost(c, b, st, session, id);
      && Extends(st, out.1) && NoCreates(Added(st, out.1))
      && (out.0.Failure? ==> LoginError(out.0.error) || ("Failed retrieving lead " + id + ": ") <= out.0.error)
  {
    var (reply, st1) := Exchange(b, st, Retrieve(session, id));
    if Mentions(reply, "invalid") || Mentions(reply, "session") {
      var out := RetrieveRetry(c, b, st1, id);
      RetrieveRetryFacts(c, b, st1, id);
      ExtendsTrans(st, st1, out.1);
      NoCreatesAppend(Added(st, st1), Added(st1, out.1));
    }
  }

  /** `get_lead` only reads: it never creates a lead, and it fails only with a login error or
      the "Failed retrieving lead" message. */
  lemma RetrieveFacts(c: Credentials, b: Behaviour, st: St, id: string)
    ensures var out := RetrieveSpec(c, b, st, id);
      && Extends(st, out.1) && NoCreates(Added(st, out.1))
      && (out.0.Failure? ==> LoginError(out.0.error) || ("Failed retrieving lead " + id + ": ") <= out.0.error)
  {
    var (s, st1) := SessionSpec(c, b, st);
    SessionFacts(c, b, st);
    if s.Success? {
      var out := RetrievePost(c, b, st1, s.value, id);
      RetrievePostFacts(c, b, st1, s.value, id);
      ExtendsTrans(st, st1, out.1);
      NoCreatesAppend(Added(st, st1), Added(st1, out.1));
    }
  }

  /** What `get_lead` returns, read off the log its call ended with: when the last request is the
      retrieve, its reply decides (a rejection raises "Failed retrieving lead <id>: " and the
      reply, a record is returned); otherwise the retry's login failed and its error is raised. */
  predicate RetrieveAnswered(b: Behaviour, log: seq<Request>, id: string, r: Result<map<string, string>>)
    requires log != []
  {
    var last := ReplyTo(b, log, |log| - 1);
    if log[|log| - 1].Retrieve? then
      && (last.Rejected? ==> r == Failure("Failed retrieving lead " + id + ": " + last.text))
      && (r.Success? <==> last.Ok? && last.answer.Record?)
      && (r.Success? ==> r.value == last.answer.fields)
    else r.Failure? && LoginError(r.error)
  }

  /** The retry of `get_lead` alone: a fresh login (the challenge first), then one retrieve under
      the new session exactly when that login named one. */
  lemma RetrieveRetryRule(c: Credentials, b: Behaviour, st: St, id: string)
    ensures var out := RetrieveRetry(c, b, st, id); var log := out.1.sent; var n := |st.sent|;
      && Extends(st, out.1) && n + 1 <= |log| <= n + 3 && log[n] == GetChallenge(c.username)
      && (n + 2 <= |log| ==> log[n + 1].Login?)
      && (|log| == n + 3 <==> n + 2 <= |log| && LoggedIn(ReplyTo(b, log, n + 1)))
      && (|log| == n + 3 ==> log[n + 2] == Retrieve(ReplyTo(b, log, n + 1).answer.sessionName, id))
      && RetrieveAnswered(b, log, id, out.0)
  {
    var out := RetrieveRetry(c, b, st, id);
    LoginFacts(c, b, st);
    RetryLogin(c, b, st, out.1.sent);
  }

  /** The retry of `get_lead`, from its first retrieve on: a second retrieve follows a fresh login
      exactly when the first is rejected with "invalid" or "session" and that login succeeds. */
  lemma RetrievePostRule(c: Credentials, b: Behaviour, st: St, session: string, id: string)
    ensures var out := RetrievePost(c, b, st, session, id);
      && Extends(st, out.1)
      && RetriedOnce(c, b, out.1.sent, |st.sent|, session, s => Retrieve(s, id),
                     r => Mentions(r, "invalid") || Mentions(r, "session"))
      && RetrieveAnswered(b, out.1.sent, id, out.0)
  {
    var out := RetrievePost(c, b, st, session, id);
    var (reply, st1) := Exchange(b, st, Retrieve(session, id));
    assert out.1.sent[..|st.sent|] == st.sent;
    if Mentions(reply, "invalid") || Mentions(reply, "session") {
      RetrieveRetryRule(c, b, st1, id);
      ExtendsTrans(st, st1, out.1);
    }
  }

  /** `get_lead`: a failed `get_session` raises its login error with no retrieve sent; otherwise
      the call is `RetrievePostRule`'s from the first retrieve on, under the session obtained. */
  lemma GetLeadRule(c: Credentials, b: Behaviour, st: St, id: string)
    ensures var (s, st1) := SessionSpec(c, b, st); var out := RetrieveSpec(c, b, st, id);
      && (s.Failure? ==> out == (Failure(s.error), st1) && LoginError(s.error) && NoCreates(Added(st, st1)))
      && (s.Success? ==>
            && Extends(st1, out.1)
            && RetriedOnce(c, b, out.1.sent, |st1.sent|, s.value, s => Retrieve(s, id),
                           r => Mentions(r, "invalid") || Mentions(r, "session"))
            && RetrieveAnswered(b, out.1.sent, id, out.0))
  {
    var (s, st1) := SessionSpec(c, b, st);
    SessionFacts(c, b, st);
    if s.Success? {
      RetrievePostRule(c, b, st1, s.value, id);
    }
  }

  /** The line of one comment: the creation time with "T" made a space, " : ", the trimmed text. */
  function CommentLine(r: CommentRow): string
  {
    ReplaceChar(r.createdTime, 'T', ' ') + " : " + Strip(r.content)
  }

  /** The lines of the rows whose comment is not blank, oldest first. */
  function Kept(rows: seq<CommentRow>): seq<string>
  {
    if rows == [] then []
    else Kept(rows[..|rows| - 1]) + (if Strip(rows[|rows| - 1].content) != "" then [CommentLine(rows[|rows| - 1])] else [])
  }

  function Reversed<T>(s: seq<T>): seq<T>
  {
    if s == [] then [] else Reversed(s[1..]) + [s[0]]
  }

  /** The comment history as the sheet shows it: newest first, one per line. */
  function Formatted(rows: seq<CommentRow>): string
  {
    Join(Reversed(Kept(rows)), "\n")
  }

  function CommentsOutcome(reply: Reply): Result<string>
  {
    match reply
    case Ok(Rows(rows)) => Success(Formatted(rows))
    case Ok(_) => Failure(Malformed)
    case Rejected(_) => Success("")
  }

  /** The retry of `get_all_comments`: a fresh login, then the query again. */
  function CommentsRetry(c: Credentials, b: Behaviour, st: St, id: string): (Result<string>, St)
  {
    var (s, st1) := LoginSpec(c, b, st);
    if s.Failure? then (Failure(s.error), st1)
    else
      var (reply, st2) := Exchange(b, st1, Query(s.value, id));
      (CommentsOutcome(reply), st2)
  }

  /** The first query of `get_all_comments` under `session`, and the retry if it is rejected as "invalid". */
  function CommentsPost(c: Credentials, b: Behaviour, st: St, session: string, id: string): (Result<string>, St)
  {
    var (reply, st1) := Exchange(b, st, Query(session, id));
    if Mentions(reply, "invalid") then
      CommentsRetry(c, b, st1, id)
    else (CommentsOutcome(reply), st1)
  }

  /** `get_all_comments`: retried once on "invalid"; a reply that still fails gives "". */
  function CommentsSpec(c: Credentials, b: Behaviour, st: St, id: string): (Result<string>, St)
  {
    var (s, st1) := SessionSpec(c, b, st);
    if s.Failure? then (Failure(s.error), st1)
    else
      CommentsPost(c, b, st1, s.value, id)
  }

  lemma CommentsRetryFacts(c: Credentials, b: Behaviour, st: St, id: string)
    ensures var out := CommentsRetry(c, b, st, id);
      && Extends(st, out.1) && NoCreates(Added(st, out.1))
      && (out.0.Failure? ==> LoginError(out.0.error))
  {
    var (s, st1) := LoginSpec(c, b, st);
    LoginFacts(c, b, st);
    if s.Success? {
      var (reply, st2) := Exchange(b, st1, Query(s.value, id));
      ExtendsTrans(st, st1, st2);
      NoCreatesAppend(Added(st, st1), Added(st1, st2));
    }
  }

  lemma CommentsPostFacts(c: Credentials, b: Behaviour, st: St, session: string, id: string)
    ensures var out := CommentsPost(c, b, st, session, id);
      && Extends(st, out.1) && NoCreates(Added(st, out.1))
      && (out.0.Failure? ==> LoginError(out.0.error))
  {
    var (reply, st1) := Exchange(b, st, Query(session, id));
    if Mentions(reply, "invalid") {
      var out := CommentsRetry(c, b, st1, id);
      CommentsRetryFacts(c, b, st1, id);
      ExtendsTrans(st, st1, out.1);
      NoCreatesAppend(Added(st, st1), Added(st1, out.1));
    }
  }

  /** `get_all_comments` only reads, and a query the server keeps rejecting is not an error:
      only a failed login makes it fail. */
  lemma CommentsFacts(c: Credentials, b: Behaviour, st: St, id: string)
    ensures var out := CommentsSpec(c, b, st, id);
      && Extends(st, out.1) && NoCreates(Added(st, out.1))
      && (out.0.Failure? ==> LoginError(out.0.error))
  {
    var (s, st1) := SessionSpec(c, b, st);
    SessionFacts(c, b, st);
    if s.Success? {
      var out := CommentsPost(c, b, st1, s.value, id);
      CommentsPostFacts(c, b, st1, s.value, id);
      ExtendsTrans(st, st1, out.1);
      NoCreatesAppend(Added(st, st1), Added(st1, out.1));
    }
  }

  /** What `get_all_comments` returns, read off the log its call ended with: when the last
      request is the query, its reply decides (a rejection gives "", rows give their formatted
      text); otherwise the retry's login failed and its error is raised. */
  predicate CommentsAnswered(b: Behaviour, log: seq<Request>, r: Result<string>)
    requires log != []
  {
    var last := ReplyTo(b, log, |log| - 1);
    if log[|log| - 1].Query? then
      && (last.Rejected? ==> r == Success(""))
      && (last.Ok? && last.answer.Rows? ==> r == Success(Formatted(last.answer.rows)))
      && (r.Failure? ==> last.Ok? && !last.answer.Rows?)
    else r.Failure? && LoginError(r.error)
  }

  /** The retry of `get_all_comments` alone: a fresh login (the challenge first), then one query
      under the new session exactly when that login named one. */
  lemma CommentsRetryRule(c: Credentials, b: Behaviour, st: St, id: string)
    ensures var out := CommentsRetry(c, b, st, id); var log := out.1.sent; var n := |st.sent|;
      && Extends(st, out.1) && n + 1 <= |log| <= n + 3 && log[n] == GetChallenge(c.username)
      && (n + 2 <= |log| ==> log[n + 1].Login?)
      && (|log| == n + 3 <==> n + 2 <= |log| && LoggedIn(ReplyTo(b, log, n + 1)))
      && (|log| == n + 3 ==> log[n + 2] == Query(ReplyTo(b, log, n + 1).answer.sessionName, id))
      && CommentsAnswered(b, log, out.0)
  {
    var out := CommentsRetry(c, b, st, id);
    LoginFacts(c, b, st);
    RetryLogin(c, b, st, out.1.sent);
  }

  /** The retry of `get_all_comments`, from its first query on: a second query follows a fresh
      login exactly when the first is rejected as "invalid" and that login succeeds. */
  lemma CommentsPostRule(c: Credentials, b: Behaviour, st: St, session: string, id: string)
    ensures var out := CommentsPost(c, b, st, session, id);
      && Extends(st, out.1)
      && RetriedOnce(c, b, out.1.sent, |st.sent|, session, s => Query(s, id), r => Mentions(r, "invalid"))
      && CommentsAnswered(b, out.1.sent, out.0)
  {
    var out := CommentsPost(c, b, st, session, id);
    var (reply, st1) := Exchange(b, st, Query(session, id));
    assert out.1.sent[..|st.sent|] == st.sent;
    if Mentions(reply, "invalid") {
      CommentsRetryRule(c, b, st1, id);
      ExtendsTrans(st, st1, out.1);
    }
  }

  /** `get_all_comments`: a failed `get_session` raises its login error with no query sent;
      otherwise the call is `CommentsPostRule`'s from the first query on. */
  lemma GetAllCommentsRule(c: Credentials, b: Behaviour, st: St, id: string)
    ensures var (s, st1) := SessionSpec(c, b, st); var out := CommentsSpec(c, b, st, id);
      && (s.Failure? ==> out == (Failure(s.error), st1) && LoginError(s.error) && NoCreates(Added(st, st1)))
      && (s.Success? ==>
            && Extends(st1, out.1)
            && RetriedOnce(c, b, out.1.sent, |st1.sent|, s.value, s => Query(s, id), r => Mentions(r, "invalid"))
            && CommentsAnswered(b, out.1.sent, out.0))
  {
    var (s, st1) := SessionSpec(c, b, st);
    SessionFacts(c, b, st);
    if s.Success? {
      CommentsPostRule(c, b, st1, s.value, id);
    }
  }

  // ---------------------------------------------------------------------------
  // Comment formatting
  // ---------------------------------------------------------------------------

  /** The answer of `get_all_comments` for the final reply: the formatted rows, or "" for a rejection. */
  method CommentsResult(reply: Reply) returns (r: Result<string>)
    ensures r == CommentsOutcome(reply)
  {
    match reply
    case Ok(Rows(rows)) =>
      var text := FormatComments(rows);
      r := Success(text);
    case Ok(_) => r := Failure(Malformed);
    case Rejected(_) => r := Success("");
  }

  /** The loop of `get_all_comments`: collect the non-blank comments, reverse, join. */
  method FormatComments(rows: seq<CommentRow>) returns (text: string)
    ensures text == Formatted(rows)
  {
    var formatted: seq<string> := [];
    for i := 0 to |rows|
      invariant formatted == Kept(rows[..i])
    {
      assert rows[..i + 1][..i] == rows[..i];
      var com := Strip(rows[i].content);
      var ts := ReplaceChar(rows[i].createdTime, 'T', ' ');
      if com != "" {
        formatted := formatted + [ts + " : " + com];
      }
    }
    assert rows[..|rows|] == rows;
    formatted := Reversed(formatted);
    text := Join(formatted, "\n");
  }

  lemma {:induction false} ReversedAt<T>(s: seq<T>, k: int)
    requires 0 <= k < |s|
    ensures |Reversed(s)| == |s| && Reversed(s)[k] == s[|s| - 1 - k]
    decreases |s|
  {
    if k < |s| - 1 {
      ReversedAt(s[1..], k);
    } else {
      ReversedLength(s[1..]);
    }
  }

  lemma {:induction false} ReversedLength<T>(s: seq<T>)
    ensures |Reversed(s)| == |s|
    decreases |s|
  {
    if s != [] {
      ReversedLength(s[1..]);
    }
  }

  /** The joined text starts with the first part, then the separator if more follow. */
  lemma {:induction false} JoinFirst(parts: seq<string>, sep: string)
    requires parts != []
    ensures |parts| == 1 ==> Join(parts, sep) == parts[0]
    ensures |parts| > 1 ==> Join(parts, sep) == parts[0] + sep + Join(parts[1..], sep)
    decreases |parts|
  {
    if |parts| > 2 {
      JoinFirst(parts[..|parts| - 1], sep);
      assert parts[..|parts| - 1][1..] == parts[1..][..|parts| - 2];
    } else if |parts| == 2 {
      assert parts[..1] == [parts[0]];
      assert parts[1..] == [parts[1]];
    }
  }

  /** The last line kept is the line of the last row whose comment is not blank. */
  lemma {:induction false} KeptLast(rows: seq<CommentRow>, j: int)
    requires 0 <= j < |rows| && Strip(rows[j].content) != ""
    requires forall k :: j < k < |rows| ==> Strip(rows[k].content) == ""
    ensures Kept(rows) != [] && Kept(rows)[|Kept(rows)| - 1] == CommentLine(rows[j])
    decreases |rows|
  {
    if j < |rows| - 1 {
      KeptLast(rows[..|rows| - 1], j);
    }
  }

  /** With no non-blank comment nothing is kept. */
  lemma {:induction false} KeptNone(rows: seq<CommentRow>)
    requires forall k :: 0 <= k < |rows| ==> Strip(rows[k].content) == ""
    ensures Kept(rows) == []
    decreases |rows|
  {
    if rows != [] {
      KeptNone(rows[..|rows| - 1]);
    }
  }

  /** Newest first: the text opens with the line of the most recent non-blank comment
      (rows arrive ordered by creation time, oldest first). */
  lemma NewestFirst(rows: seq<CommentRow>, j: int)
    requires 0 <= j < |rows| && Strip(rows[j].content) != ""
    requires forall k :: j < k < |rows| ==> Strip(rows[k].content) == ""
    ensures CommentLine(rows[j]) <= Formatted(rows)
  {
    KeptLast(rows, j);
    var lines := Reversed(Kept(rows));
    ReversedAt(Kept(rows), 0);
    JoinFirst(lines, "\n");
  }

  /** Index of the last row whose comment is not blank, -1 when there is none. */
  function LastNonBlank(rows: seq<CommentRow>): (j: int)
    ensures -1 <= j < |rows|
    ensures j >= 0 ==> Strip(rows[j].content) != ""
    ensures forall k :: j < k < |rows| ==> Strip(rows[k].content) == ""
  {
    if rows == [] then -1
    else if Strip(rows[|rows| - 1].content) != "" then |rows| - 1
    else LastNonBlank(rows[..|rows| - 1])
  }

  /** The comments cell is written exactly when some comment is not blank: every kept line
      holds a ':' and so is never blank, and without kept lines the text is "". */
  lemma CommentsBlankIff(rows: seq<CommentRow>)
    ensures Strip(Formatted(rows)) == "" <==> forall k :: 0 <= k < |rows| ==> Strip(rows[k].content) == ""
  {
    var j := LastNonBlank(rows);
    StripBlank(Formatted(rows));
    if j < 0 {
      KeptNone(rows);
      assert Formatted(rows) == "";
    } else {
      NewestFirst(rows, j);
      var line := CommentLine(rows[j]);
      var ts := ReplaceChar(rows[j].createdTime, 'T', ' ');
      assert line[|ts| + 1] == ':';
      assert Formatted(rows)[|ts| + 1] == ':';
    }
  }

  // ---------------------------------------------------------------------------
  // The client object
  // ---------------------------------------------------------------------------

  /** The network and the clock as the client sees them: every request is logged
      and answered according to `behaviour`. */
  class Environment {
    var sent: seq<Request>
    const behaviour: Behaviour

    constructor(behaviour: Behaviour)
      ensures this.behaviour == behaviour && sent == []
    {
      this.behaviour := behaviour;
      sent := [];
    }

    /** Send one request and decode the JSON reply. */
    method Call(req: Request) returns (reply: Reply)
      modifies this
      ensures sent == old(sent) + [req]
      ensures reply == behaviour.respond(old(sent), req)
    {
      reply := behaviour.respond(sent, req);
      sent := sent + [req];
    }

    /** `time.time()`. */
    method Now() returns (t: int)
      ensures t == behaviour.clock(sent)
    {
      t := behaviour.clock(sent);
    }
  }

  /** `CRMClient`: credentials and the cached session with its expiry. */
  class CrmClient {
    const creds: Credentials
    const env: Environment
    var sessionName: Option<string>
    var sessionExpiry: int

    /** The client's fields together with the requests sent so far. */
    function State(): St
      reads this, env
    {
      St(sessionName, sessionExpiry, env.sent)
    }

    constructor(creds: Credentials, env: Environment)
      ensures this.creds == creds && this.env == env
      ensures sessionName == None && sessionExpiry == 0
    {
      this.creds := creds;
      this.env := env;
      sessionName := None;
      sessionExpiry := 0;
    }

    method GetChallenge() returns (token: Result<string>)
      modifies env
      ensures (token, State()) == ChallengeSpec(creds, env.behaviour, old(State()))
    {
      var reply := env.Call(Request.GetChallenge(creds.username));
      match reply
      case Ok(Challenge(t)) => token := Success(t);
      case Ok(_) => token := Failure(Malformed);
      case Rejected(_) => token := Failure(ChallengeFailed);
    }

    method Login() returns (r: Result<string>)
      modifies this, env
      ensures (r, State()) == LoginSpec(creds, env.behaviour, old(State()))
    {
      var ch := GetChallenge();
      if ch.Failure? {
        return Failure(ch.error);
      }
      var now := env.Now();
      sessionExpiry := now + SessionLifetime;
      var reply := env.Call(Request.Login(creds.username, creds.md5Hex(ch.value + creds.accessKey)));
      match reply
      case Ok(LoggedIn(name)) =>
        sessionName := Some(name);
        r := Success(name);
      case Ok(_) => r := Failure(Malformed);
      case Rejected(text) => r := Failure("CRM login failed: " + text);
    }

    method GetSession() returns (r: Result<string>)
      modifies this, env
      ensures (r, State()) == SessionSpec(creds, env.behaviour, old(State()))
    {
      var now := env.Now();
      if sessionName.None? || sessionName.value == "" || now >= sessionExpiry {
        r := Login();
        if r.Failure? {
          return;
        }
      }
      r := Success(sessionName.value);
    }

    method CreateLead(element: map<string, string>) returns (r: Result<map<string, string>>)
      modifies this, env
      ensures (r, State()) == CreateSpec(creds, env.behaviour, old(State()), element)
    {
      var session := GetSession();
      if session.Failure? {
        return Failure(session.error);
      }
      var reply := env.Call(Create(session.value, element));
      if Mentions(reply, "invalid") {
        session := Login();
        if session.Failure? {
          return Failure(session.error);
        }
        reply := env.Call(Create(session.value, element));
      }
      r := CreateOutcome(reply);
    }

    method GetLead(id: string) returns (r: Result<map<string, string>>)
      modifies this, env
      ensures (r, State()) == RetrieveSpec(creds, env.behaviour, old(State()), id)
    {
      var session := GetSession();
      if session.Failure? {
        return Failure(session.error);
      }
      var reply := env.Call(Retrieve(session.value, id));
      if Mentions(reply, "invalid") || Mentions(reply, "session") {
        session := Login();
        if session.Failure? {
          return Failure(session.error);
        }
        reply := env.Call(Retrieve(session.value, id));
      }
      r := RetrieveOutcome(reply, id);
    }

    method GetAllComments(id: string) returns (r: Result<string>)
      modifies this, env
      ensures (r, State()) == CommentsSpec(creds, env.behaviour, old(State()), id)
    {
      var session := GetSession();
      if session.Failure? {
        return Failure(session.error);
      }
      var reply := env.Call(Query(session.value, id));
      if Mentions(reply, "invalid") {
        session := Login();
        if session.Failure? {
          return Failure(session.error);
        }
        reply := env.Call(Query(session.value, id));
      }
      r := CommentsResult(reply);
    }
  }
}
