/** First-run setup: one request turns the one-time token into the stored credentials, while
    any number of others try to. */
module Setup {
  import opened Results
  import opened Text
  import opened Bytes
  import opened Base64
  import opened Pbkdf2
  import opened Auth
  import LoginLimiter

  datatype Credentials = Credentials(username: string, passwordHash: string)

  /** The fields credentialsMu guards. */
  datatype Secrets = Secrets(username: string, passwordHash: string, setupToken: string)

  datatype Config = Config(username: string, passwordHash: string, credentialsPath: string, hasSessions: bool)

  datatype StartError = Incomplete | NoCredentials | NoToken

  /** What New puts in the fields; the random bytes are there unless the source failed. */
  function NewSecrets(config: Config, random: Option<seq<Byte>>): Result<Secrets, StartError>
    requires random.Some? ==> |random.value| == 32
  {
    if config.username == "" || !config.hasSessions then Err(Incomplete)
    else if config.passwordHash != "" then Ok(Secrets(config.username, config.passwordHash, ""))
    else if config.credentialsPath == "" then Err(NoCredentials)
    else if random.None? then Err(NoToken)
    else Ok(Secrets(config.username, "", Encode(UrlSafe, random.value)))
  }

  /** A server has a password or a setup token, and never both. */
  predicate TokenXorPassword(s: Secrets) {
    s.passwordHash == "" <==> s.setupToken != ""
  }

  lemma NewSecretsGood(config: Config, random: Option<seq<Byte>>)
    requires random.Some? ==> |random.value| == 32
    ensures var r := NewSecrets(config, random);
            && (r.Ok? <==> && config.username != "" && config.hasSessions
                           && (config.passwordHash != "" || (config.credentialsPath != "" && random.Some?)))
            && (r.Ok? ==> TokenXorPassword(r.value) && r.value.username == config.username != ""
                          && r.value.passwordHash == config.passwordHash)
  {
    if random.Some? { EncodeIsBase64(UrlSafe, random.value); }
  }

  // ----- one request -----

  datatype Request = Request(token: string, username: string, password: string, salt: Option<seq<Byte>>) {
    predicate Valid() {
      salt.Some? ==> |salt.value| == SALT_BYTES
    }
  }

  datatype Refusal = TooManyAttempts | AlreadyConfigured | WrongToken | WeakPassword | HashFailed | StoreFailed

  /** The password policy, for passwords of ASCII characters. */
  predicate AcceptablePassword(username: string, password: string) {
    && 12 <= |password| <= 1024
    && TrimSpace(password) != ""
    && !(username != "" && EqualFold(TrimSpace(password), TrimSpace(username)))
  }

  function ChosenUsername(req: Request, configured: string): string {
    if TrimSpace(req.username) == "" then configured else TrimSpace(req.username)
  }

  /** Between the two locked regions: the token compared with what the first region read, the
      policy, and the hash. */
  function Prepare(prf: Prf, req: Request, expected: string, configured: string): Result<Credentials, Refusal>
    requires req.Valid()
  {
    if req.token != expected then Err(WrongToken)
    else
      var username := ChosenUsername(req, configured);
      if !AcceptablePassword(username, req.password) then Err(WeakPassword)
      else
        match HashPassword(prf, req.password, req.salt)
        case Err(_) => Err(HashFailed)
        case Ok(hash) => Ok(Credentials(username, hash))
  }

  /** SaveCredentials as one replacement of the file, which the disk may refuse. */
  function Saved(prf: Prf, c: Credentials, file: Option<Credentials>, diskOk: bool): (Option<Credentials>, bool) {
    if c.username == "" || !ValidatePasswordHash(prf, c.passwordHash) || !diskOk then (file, false)
    else (Some(c), true)
  }

  /** The second locked region. */
  function Committed(s: Secrets, c: Credentials): (Secrets, bool) {
    if s.passwordHash != "" then (s, false) else (Secrets(c.username, c.passwordHash, ""), true)
  }

  class Server {
    const configured: string
    var username: string
    var passwordHash: string
    var setupToken: string
    /** The credentials file. */
    var file: Option<Credentials>

    constructor (configured: string, s: Secrets, file: Option<Credentials>)
      ensures this.configured == configured && Fields() == s && this.file == file
    {
      this.configured := configured;
      username, passwordHash, setupToken := s.username, s.passwordHash, s.setupToken;
      this.file := file;
    }

    function Fields(): Secrets
      reads this
    {
      Secrets(username, passwordHash, setupToken)
    }

    method SetupRequired() returns (required: bool)
      ensures required == (passwordHash == "")
    {
      return passwordHash == "";
    }

    /** Whether requireAuth goes on to the handler. */
    method RequireAuth(sessionValid: bool) returns (runs: bool)
      ensures runs <==> HandlerRuns(Fields(), sessionValid)
      ensures runs <==> passwordHash != "" && sessionValid
    {
      var required := SetupRequired();
      if required {
        return false;
      }
      return sessionValid;
    }

    /** The first locked region: the token to compare with, unless setup is over. */
    method BeginSetup() returns (expected: Option<string>)
      ensures expected == if passwordHash != "" then None else Some(setupToken)
    {
      if passwordHash != "" {
        return None;
      }
      return Some(setupToken);
    }

    method SaveCredentials(prf: Prf, c: Credentials, diskOk: bool) returns (ok: bool)
      modifies this`file
      ensures (file, ok) == Saved(prf, c, old(file), diskOk)
      ensures ok <==> c.username != "" && diskOk && exists f :: Says(c.passwordHash, f) && f.Accepted()
      ensures file == if ok then Some(c) else old(file)
    {
      hide ValidatePasswordHash;
      ValidateMeaning(prf, c.passwordHash);
      if c.username == "" {
        return false;
      }
      if !ValidatePasswordHash(prf, c.passwordHash) {
        return false;
      }
      if !diskOk {
        return false;
      }
      file := Some(c);
      return true;
    }

    method CommitSetup(c: Credentials) returns (ok: bool)
      modifies this`username, this`passwordHash, this`setupToken
      ensures (Fields(), ok) == Committed(old(Fields()), c)
    {
      if passwordHash != "" {
        return false;
      }
      username, passwordHash, setupToken := c.username, c.passwordHash, "";
      return true;
    }

    /** A setup request nothing else interferes with. It succeeds exactly for the right token
        with an acceptable password on a server without one, when its address is not limited and
        randomness and the disk do their part; memory and file then agree, and any other request
        changes neither. A wrong token counts as a failure of the address, and a success clears it. */
    method PerformSetup(prf: Prf, limiter: LoginLimiter.Limiter, address: string, asked: int, failed: int,
                        req: Request, diskOk: bool)
      returns (refused: Option<Refusal>)
      requires limiter.Valid() && req.Valid() && configured != ""
      modifies this, limiter, limiter.buffers
      ensures limiter.Valid() && fresh(limiter.buffers - old(limiter.buffers))
      ensures limiter.view == LimiterAfter(old(limiter.view), address, asked, failed, refused)
      ensures refused == Some(TooManyAttempts) <==> !LoginLimiter.Allows(old(limiter.view), address, asked)
      ensures refused.None? <==>
              && LoginLimiter.Allows(old(limiter.view), address, asked)
              && old(passwordHash) == "" && diskOk
              && Prepare(prf, req, old(setupToken), configured).Ok?
      ensures refused == Some(WrongToken) <==>
              && LoginLimiter.Allows(old(limiter.view), address, asked)
              && old(passwordHash) == "" && req.token != old(setupToken)
      ensures refused.None? ==>
                && file == Some(Credentials(username, passwordHash))
                && Ok(file.value) == Prepare(prf, req, old(setupToken), configured)
                && passwordHash != "" && setupToken == ""
                && NamesUser(req.username, configured, username) && VerifyPassword(prf, passwordHash, req.password)
      ensures refused == Some(WeakPassword) <==>
              && LoginLimiter.Allows(old(limiter.view), address, asked)
              && old(passwordHash) == "" && req.token == old(setupToken)
              && exists user :: NamesUser(req.username, configured, user) && IsWeak(req.password, user)
      ensures refused.Some? ==> Fields() == old(Fields()) && file == old(file)
    {
      hide LoginLimiter.Allows, LoginLimiter.Pruned, LoginLimiter.WithFailure, LoginLimiter.Cleared, HashPassword,
           AcceptablePassword, ValidatePasswordHash, LoginLimiter.Limiter.Valid, NamesUser, IsWeak, VerifyPassword,
           Prepare;
      ghost var user := PrepareMeaning(prf, req, setupToken, configured);
      forall other | NamesUser(req.username, configured, other) ensures other == user {
        NamedOnce(req.username, configured, user, other);
      }
      var allowed := limiter.Allow(address, asked);
      if !allowed {
        return Some(TooManyAttempts);
      }
      var expected := BeginSetup();
      if expected.None? {
        return Some(AlreadyConfigured);
      }
      var c := Prepare(prf, req, expected.value, configured);
      if c.Err? {
        if c.error.WrongToken? {
          limiter.Failed(address, failed);
        }
        return Some(c.error);
      }
      PreparedIsStorable(prf, req, expected.value, configured);
      var stored := SaveCredentials(prf, c.value, diskOk);
      if !stored {
        return Some(StoreFailed);
      }
      var committed := CommitSetup(c.value);
      limiter.Succeeded(address);
      return None;
    }
  }

  /** What a setup request leaves of the limiter's records. */
  function LimiterAfter(view: LoginLimiter.Records, address: string, asked: int, failed: int, refused: Option<Refusal>):
    LoginLimiter.Records
  {
    var pruned := LoginLimiter.Pruned(view, address, asked);
    match refused
    case None => LoginLimiter.Cleared(pruned, address)
    case Some(WrongToken) => LoginLimiter.WithFailure(pruned, address, failed)
    case Some(_) => pruned
  }

  /** Whatever passes the checks can be stored: the hash is a valid one for a named user. */
  lemma PreparedIsStorable(prf: Prf, req: Request, expected: string, configured: string)
    requires req.Valid() && configured != ""
    ensures var c := Prepare(prf, req, expected, configured);
            c.Ok? ==> Storable(prf, c.value)
  {
    if Prepare(prf, req, expected, configured).Ok? {
      HashRoundTrip(prf, req.password, req.salt.value, req.password);
    }
  }

  predicate Storable(prf: Prf, c: Credentials) {
    c.username != "" && c.passwordHash != "" && ValidatePasswordHash(prf, c.passwordHash)
  }

  // ----- all requests at once -----

  type RequestId = nat

  /** How far a setup request has got. */
  datatype Phase =
    | Arrived
    | Checked(expected: string)
    | Prepared(credentials: Credentials)
    | Stored(credentials: Credentials)
    | Succeeded(credentials: Credentials)
    | Refused(why: Refusal)

  datatype Entry = Entry(request: Request, phase: Phase)

  datatype State = State(secrets: Secrets, file: Option<Credentials>, requests: map<RequestId, Entry>)

  datatype Step =
    | Arrive(id: RequestId, request: Request)
    | FirstCheck(id: RequestId)
    | Check(id: RequestId)
    | Save(id: RequestId, diskOk: bool)
    | Commit(id: RequestId)

  predicate Enabled(s: State, step: Step) {
    match step
    case Arrive(id, req) => id !in s.requests && req.Valid()
    case FirstCheck(id) => id in s.requests && s.requests[id].phase.Arrived?
    case Check(id) => id in s.requests && s.requests[id].phase.Checked? && s.requests[id].request.Valid()
    case Save(id, _) => id in s.requests && s.requests[id].phase.Prepared?
    case Commit(id) => id in s.requests && s.requests[id].phase.Stored?
  }

  function Moved(s: State, id: RequestId, phase: Phase): State
    requires id in s.requests
  {
    s.(requests := s.requests[id := s.requests[id].(phase := phase)])
  }

  function Apply(prf: Prf, configured: string, s: State, step: Step): State
    requires Enabled(s, step)
  {
    match step
    case Arrive(id, req) => s.(requests := s.requests[id := Entry(req, Arrived)])
    case FirstCheck(id) =>
      Moved(s, id, if s.secrets.passwordHash != "" then Refused(AlreadyConfigured) else Checked(s.secrets.setupToken))
    case Check(id) =>
      (match Prepare(prf, s.requests[id].request, s.requests[id].phase.expected, configured)
       case Err(why) => Moved(s, id, Refused(why))
       case Ok(c) => Moved(s, id, Prepared(c)))
    case Save(id, diskOk) =>
      var c := s.requests[id].phase.credentials;
      var (file, ok) := Saved(prf, c, s.file, diskOk);
      Moved(s.(file := file), id, if ok then Stored(c) else Refused(StoreFailed))
    case Commit(id) =>
      var c := s.requests[id].phase.credentials;
      var (secrets, ok) := Committed(s.secrets, c);
      Moved(s.(secrets := secrets), id, if ok then Succeeded(c) else Refused(AlreadyConfigured))
  }

  /** The state after the steps from a start, or nothing if some step was not possible. */
  function After(prf: Prf, configured: string, start: State, steps: seq<Step>): Option<State> {
    if steps == [] then Some(start)
    else
      match After(prf, configured, start, steps[..|steps| - 1])
      case None => None
      case Some(s) =>
        if Enabled(s, steps[|steps| - 1]) then Some(Apply(prf, configured, s, steps[|steps| - 1])) else None
  }

  /** A server as New leaves it: no request yet. */
  ghost predicate IsStart(s: State) {
    s.requests == map[] && TokenXorPassword(s.secrets)
  }

  ghost predicate EntryGood(prf: Prf, s: State, id: RequestId)
    requires id in s.requests
  {
    match s.requests[id].phase
    case Checked(expected) => expected != ""
    case Prepared(c) => Storable(prf, c)
    case Stored(c) => Storable(prf, c)
    case Succeeded(c) => c == Credentials(s.secrets.username, s.secrets.passwordHash)
    case _ => true
  }

  predicate HasSucceeded(s: State, id: RequestId) {
    id in s.requests && s.requests[id].phase.Succeeded?
  }

  ghost predicate EntriesGood(prf: Prf, s: State) {
    forall id :: id in s.requests ==> s.requests[id].request.Valid() && EntryGood(prf, s, id)
  }

  /** A password is the one the server started with, or the work of one request. */
  ghost predicate OneSuccess(start: State, s: State) {
    && (forall id, other :: HasSucceeded(s, id) && HasSucceeded(s, other) ==> id == other)
    && (s.secrets.passwordHash == "" || start.secrets.passwordHash != "" ==>
          s.secrets == start.secrets && forall id :: !HasSucceeded(s, id))
    && (s.secrets.passwordHash != "" && start.secrets.passwordHash == "" ==> exists id :: HasSucceeded(s, id))
  }

  lemma ApplyKeepsEntries(prf: Prf, configured: string, s: State, step: Step)
    requires configured != "" && EntriesGood(prf, s) && Enabled(s, step) && TokenXorPassword(s.secrets)
    requires s.secrets.passwordHash == "" ==> forall id :: !HasSucceeded(s, id)
    ensures EntriesGood(prf, Apply(prf, configured, s, step))
  {
    hide Prepare, Storable, Saved;
    var after := Apply(prf, configured, s, step);
    forall id | id in after.requests ensures after.requests[id].request.Valid() && EntryGood(prf, after, id) {
      if id in s.requests {
        assert EntryGood(prf, s, id);
        if step == Check(id) {
          PreparedIsStorable(prf, s.requests[id].request, s.requests[id].phase.expected, configured);
        } else if step.Commit? && s.secrets.passwordHash == "" && step.id != id {
          assert !HasSucceeded(s, id);
        }
      }
    }
  }

  lemma ApplyKeepsOneSuccess(prf: Prf, configured: string, start: State, s: State, step: Step)
    requires EntriesGood(prf, s) && OneSuccess(start, s) && Enabled(s, step)
    ensures OneSuccess(start, Apply(prf, configured, s, step))
    ensures TokenXorPassword(s.secrets) ==> TokenXorPassword(Apply(prf, configured, s, step).secrets)
  {
    hide Prepare, Saved, ValidatePasswordHash;
    var after := Apply(prf, configured, s, step);
    if step.Commit? && s.secrets.passwordHash == "" {
      assert EntryGood(prf, s, step.id);
      assert HasSucceeded(after, step.id);
      assert forall id :: HasSucceeded(after, id) ==> id == step.id || HasSucceeded(s, id);
    } else {
      assert after.secrets == s.secrets;
      assert forall id :: HasSucceeded(after, id) <==> HasSucceeded(s, id);
    }
  }

  lemma {:induction false} AlwaysSafe(prf: Prf, configured: string, start: State, steps: seq<Step>)
    requires configured != "" && IsStart(start) && After(prf, configured, start, steps).Some?
    ensures var s := After(prf, configured, start, steps).value;
            TokenXorPassword(s.secrets) && EntriesGood(prf, s) && OneSuccess(start, s)
  {
    hide Apply, Enabled;
    if steps != [] {
      var before := steps[..|steps| - 1];
      AlwaysSafe(prf, configured, start, before);
      var s := After(prf, configured, start, before).value;
      ApplyKeepsEntries(prf, configured, s, steps[|steps| - 1]);
      ApplyKeepsOneSuccess(prf, configured, start, s, steps[|steps| - 1]);
    }
  }

  /** What a request carries along: the token it is to match, then what it was prepared to. */
  ghost predicate Carries(prf: Prf, configured: string, start: State, e: Entry) {
    && e.request.Valid()
    && match e.phase
       case Checked(expected) => expected == start.secrets.setupToken
       case Prepared(c) => Prepare(prf, e.request, start.secrets.setupToken, configured) == Ok(c)
       case Stored(c) => Prepare(prf, e.request, start.secrets.setupToken, configured) == Ok(c)
       case Succeeded(c) => Prepare(prf, e.request, start.secrets.setupToken, configured) == Ok(c)
       case _ => true
  }

  lemma ApplyKeepsCarried(prf: Prf, configured: string, start: State, s: State, step: Step)
    requires Enabled(s, step) && OneSuccess(start, s) && start.secrets.passwordHash == ""
    requires forall id :: id in s.requests ==> Carries(prf, configured, start, s.requests[id])
    ensures var after := Apply(prf, configured, s, step);
            forall id :: id in after.requests ==> Carries(prf, configured, start, after.requests[id])
  {
    hide Prepare, Saved;
  }

  lemma {:induction false} AlwaysCarried(prf: Prf, configured: string, start: State, steps: seq<Step>)
    requires configured != "" && IsStart(start) && start.secrets.passwordHash == ""
    requires After(prf, configured, start, steps).Some?
    ensures var s := After(prf, configured, start, steps).value;
            forall id :: id in s.requests ==> Carries(prf, configured, start, s.requests[id])
  {
    hide Apply, Enabled, Carries, OneSuccess;
    if steps != [] {
      var before := steps[..|steps| - 1];
      AlwaysCarried(prf, configured, start, before);
      AlwaysSafe(prf, configured, start, before);
      ApplyKeepsCarried(prf, configured, start, After(prf, configured, start, before).value, steps[|steps| - 1]);
    }
  }

  /** The user name a request asks for: what is left of its text without the white space around
      it, and the configured name where nothing is left. */
  ghost predicate NamesUser(asked: string, configured: string, user: string) {
    if AllSpace(asked) then user == configured
    else
      && user != "" && IsTrimmed(user)
      && exists pre: string, post: string :: AllSpace(pre) && AllSpace(post) && asked == pre + user + post
  }

  /** Too short, too long, blank, or the user name in any case. */
  ghost predicate IsWeak(password: string, user: string) {
    || |password| < 12 || |password| > 1024 || AllSpace(password)
    || ToLower(TrimSpace(password)) == ToLower(TrimSpace(user))
  }

  lemma ChosenIsNamed(req: Request, configured: string)
    ensures NamesUser(req.username, configured, ChosenUsername(req, configured))
  {
    var pre, post := TrimSpaceMeaning(req.username);
  }

  /** What comes of a request between the two locked regions: each refusal in exactly one case,
      and otherwise credentials of the user it names, that its password verifies against. */
  lemma PrepareMeaning(prf: Prf, req: Request, expected: string, configured: string) returns (user: string)
    requires req.Valid() && configured != ""
    ensures NamesUser(req.username, configured, user)
    ensures var c := Prepare(prf, req, expected, configured);
            && (c == Err(WrongToken) <==> req.token != expected)
            && (c == Err(WeakPassword) <==> req.token == expected && IsWeak(req.password, user))
            && (c == Err(HashFailed) <==> req.token == expected && !IsWeak(req.password, user) && req.salt.None?)
            && (c.Ok? <==> req.token == expected && !IsWeak(req.password, user) && req.salt.Some?)
            && (c.Ok? ==> c.value.username == user && VerifyPassword(prf, c.value.passwordHash, req.password))
  {
    hide VerifyPassword, ValidatePasswordHash, NamesUser, TrimSpace, IsTrimmed, HashText;
    user := ChosenUsername(req, configured);
    ChosenIsNamed(req, configured);
    var pre, post := TrimSpaceMeaning(req.password);
    pre, post := TrimSpaceMeaning(req.username);
    if req.salt.Some? { HashRoundTrip(prf, req.password, req.salt.value, req.password); }
  }

  /** The name a request asks for is one name. */
  lemma NamedOnce(asked: string, configured: string, user: string, other: string)
    requires NamesUser(asked, configured, user) && NamesUser(asked, configured, other)
    ensures user == other
  {
    hide TrimSpace, IsTrimmed, AllSpace;
    if !AllSpace(asked) {
      var pre, post :| AllSpace(pre) && AllSpace(post) && asked == pre + user + post;
      TrimSpacePadded(pre, user, post);
      var pre', post' :| AllSpace(pre') && AllSpace(post') && asked == pre' + other + post';
      TrimSpacePadded(pre', other, post');
    }
  }

  /** The request had the token, and the credentials in force are of its user and its password. */
  ghost predicate IsEarned(prf: Prf, configured: string, start: State, secrets: Secrets, req: Request) {
    && req.token == start.secrets.setupToken
    && NamesUser(req.username, configured, secrets.username) && !IsWeak(req.password, secrets.username)
    && VerifyPassword(prf, secrets.passwordHash, req.password)
  }

  lemma PreparedIsEarned(prf: Prf, configured: string, start: State, secrets: Secrets, req: Request)
    requires req.Valid() && configured != ""
    requires Prepare(prf, req, start.secrets.setupToken, configured) ==
             Ok(Credentials(secrets.username, secrets.passwordHash))
    ensures IsEarned(prf, configured, start, secrets, req)
  {
    hide VerifyPassword, NamesUser, IsWeak, Prepare;
    var user := PrepareMeaning(prf, req, start.secrets.setupToken, configured);
  }

  /** In every interleaving of any number of setup requests: the server has a password exactly
      when it has no token; no request compares its token with an empty one; at most one
      request succeeds, it had the setup token, and the user and the password in force are then
      the ones it chose; and a password the server did not start with is there exactly when some
      request has succeeded. */
  lemma SetupSafety(prf: Prf, configured: string, start: State, steps: seq<Step>)
    requires configured != "" && IsStart(start) && After(prf, configured, start, steps).Some?
    ensures var s := After(prf, configured, start, steps).value;
            && TokenXorPassword(s.secrets)
            && (forall id :: id in s.requests && s.requests[id].phase.Checked? ==> s.requests[id].phase.expected != "")
            && (forall id, other :: HasSucceeded(s, id) && HasSucceeded(s, other) ==> id == other)
            && (forall id :: HasSucceeded(s, id) ==>
                  && s.requests[id].phase.credentials == InMemory(s)
                  && IsEarned(prf, configured, start, s.secrets, s.requests[id].request))
            && (start.secrets.passwordHash == "" ==>
                  (s.secrets.passwordHash != "" <==> exists id :: HasSucceeded(s, id)))
            && (start.secrets.passwordHash != "" ==> s.secrets == start.secrets)
  {
    hide After, Prepare, IsEarned, Storable;
    AlwaysSafe(prf, configured, start, steps);
    var s := After(prf, configured, start, steps).value;
    forall id | id in s.requests ensures EntryGood(prf, s, id) {}
    forall id | HasSucceeded(s, id) ensures IsEarned(prf, configured, start, s.secrets, s.requests[id].request) {
      AlwaysCarried(prf, configured, start, steps);
      assert EntryGood(prf, s, id) && Carries(prf, configured, start, s.requests[id]);
      PreparedIsEarned(prf, configured, start, s.secrets, s.requests[id].request);
    }
  }

  /** requireAuth lets a handler run only for a valid session on a server with a password. */
  predicate HandlerRuns(s: Secrets, sessionValid: bool) {
    s.passwordHash != "" && sessionValid
  }

  /** A server that started without a password runs no protected handler before a request has
      been through its commit. */
  lemma NoHandlerBeforeCommit(prf: Prf, configured: string, start: State, steps: seq<Step>, sessionValid: bool)
    requires configured != "" && IsStart(start) && start.secrets.passwordHash == ""
    requires After(prf, configured, start, steps).Some?
    requires HandlerRuns(After(prf, configured, start, steps).value.secrets, sessionValid)
    ensures exists id :: HasSucceeded(After(prf, configured, start, steps).value, id)
    ensures exists i :: 0 <= i < |steps| && steps[i].Commit?
  {
    SetupSafety(prf, configured, start, steps);
    if forall i :: 0 <= i < |steps| ==> !steps[i].Commit? {
      NoCommitNoChange(prf, configured, start, steps);
      assert false;
    }
  }

  lemma {:induction false} NoCommitNoChange(prf: Prf, configured: string, start: State, steps: seq<Step>)
    requires After(prf, configured, start, steps).Some?
    requires forall i :: 0 <= i < |steps| ==> !steps[i].Commit?
    ensures After(prf, configured, start, steps).value.secrets == start.secrets
  {
    if steps != [] { NoCommitNoChange(prf, configured, start, steps[..|steps| - 1]); }
  }

  /** Once there is a password, no interleaving of later steps changes any credential. */
  lemma {:induction false} CredentialsAreFinal(prf: Prf, configured: string, s: State, more: seq<Step>)
    requires s.secrets.passwordHash != "" && After(prf, configured, s, more).Some?
    ensures After(prf, configured, s, more).value.secrets == s.secrets
  {
    if more != [] { CredentialsAreFinal(prf, configured, s, more[..|more| - 1]); }
  }

  /** A request that has not made its first check when there is a password never gets to write
      the credentials file, whatever happens later. */
  lemma {:induction false} LateRequestsNeverSave(prf: Prf, configured: string, s: State, more: seq<Step>, id: RequestId)
    requires s.secrets.passwordHash != "" && After(prf, configured, s, more).Some?
    requires id in s.requests ==> s.requests[id].phase.Arrived?
    ensures forall i :: 0 <= i < |more| && more[i].Save? ==> more[i].id != id
    ensures var after := After(prf, configured, s, more).value;
            id in after.requests ==> after.requests[id].phase in {Arrived, Refused(AlreadyConfigured)}
  {
    hide Prepare, Saved;
    if more != [] {
      var before := more[..|more| - 1];
      LateRequestsNeverSave(prf, configured, s, before, id);
      CredentialsAreFinal(prf, configured, s, before);
    }
  }

  // ----- memory and file -----

  /** Between its first check and its commit. */
  predicate InProgress(s: State, id: RequestId) {
    id in s.requests &&
    (s.requests[id].phase.Checked? || s.requests[id].phase.Prepared? || s.requests[id].phase.Stored?)
  }

  /** In no state of the run are two requests in progress. */
  ghost predicate NoOverlap(prf: Prf, configured: string, start: State, steps: seq<Step>)
    requires After(prf, configured, start, steps).Some?
  {
    && (var s := After(prf, configured, start, steps).value;
        forall id, other :: InProgress(s, id) && InProgress(s, other) ==> id == other)
    && (steps != [] ==> NoOverlap(prf, configured, start, steps[..|steps| - 1]))
  }

  function InMemory(s: State): Credentials {
    Credentials(s.secrets.username, s.secrets.passwordHash)
  }

  /** A password in memory is the one in the file, with its user. */
  predicate Agree(s: State) {
    s.secrets.passwordHash != "" ==> s.file == Some(InMemory(s))
  }

  ghost predicate FileAgrees(s: State) {
    && Agree(s)
    && (s.secrets.passwordHash != "" ==> forall id :: !InProgress(s, id))
    && (forall id :: id in s.requests && s.requests[id].phase.Stored? ==>
          s.file == Some(s.requests[id].phase.credentials))
  }

  /** When no two setup requests are in progress at once, a server that came to its password by
      setup has exactly its credentials in the file. */
  lemma {:induction false} SerialSetupAgrees(prf: Prf, configured: string, start: State, steps: seq<Step>)
    requires IsStart(start) && start.secrets.passwordHash == ""
    requires After(prf, configured, start, steps).Some? && NoOverlap(prf, configured, start, steps)
    ensures FileAgrees(After(prf, configured, start, steps).value)
  {
    if steps != [] {
      var before := steps[..|steps| - 1];
      SerialSetupAgrees(prf, configured, start, before);
      var s := After(prf, configured, start, before).value;
      assert forall id, other :: InProgress(s, id) && InProgress(s, other) ==> id == other;
      ApplyKeepsAgreement(prf, configured, s, steps[|steps| - 1]);
    }
  }

  lemma ApplyKeepsAgreement(prf: Prf, configured: string, s: State, step: Step)
    requires FileAgrees(s) && Enabled(s, step)
    requires forall id, other :: InProgress(s, id) && InProgress(s, other) ==> id == other
    ensures FileAgrees(Apply(prf, configured, s, step))
  {
    hide Prepare, ValidatePasswordHash;
    var after := Apply(prf, configured, s, step);
    if step.Check? || step.Save? || step.Commit? {
      assert InProgress(s, step.id);
      assert s.secrets.passwordHash == "";
      assert forall id :: id != step.id ==> !InProgress(s, id);
    }
    assert forall id :: InProgress(after, id) ==> id == step.id || InProgress(s, id);
    forall id | id in after.requests && after.requests[id].phase.Stored?
      ensures after.file == Some(after.requests[id].phase.credentials)
    {
      if id in s.requests && s.requests[id].phase.Stored? {
        assert InProgress(s, id);
      }
    }
    assert Agree(after);
    assert after.secrets.passwordHash != "" ==> forall id :: !InProgress(after, id);
  }

  /** Two requests that both get through before either commits. */
  function Overlap(first: Request, second: Request): seq<Step> {
    [Arrive(1, first), Arrive(2, second), FirstCheck(1), FirstCheck(2), Check(1), Check(2),
     Save(1, true), Commit(1), Save(2, true), Commit(2)]
  }

  /** Both are prepared before either saves. */
  lemma BothPrepared(prf: Prf, configured: string, start: State, first: Request, second: Request) returns (s: State)
    requires IsStart(start) && start.secrets.passwordHash == "" && first.Valid() && second.Valid()
    requires Prepare(prf, first, start.secrets.setupToken, configured).Ok?
    requires Prepare(prf, second, start.secrets.setupToken, configured).Ok?
    ensures After(prf, configured, start, Overlap(first, second)[..6]) == Some(s)
    ensures s.secrets == start.secrets
    ensures var one := Prepare(prf, first, start.secrets.setupToken, configured).value;
            var two := Prepare(prf, second, start.secrets.setupToken, configured).value;
            s.requests == map[1 := Entry(first, Prepared(one)), 2 := Entry(second, Prepared(two))]
  {
    hide Prepare, ValidatePasswordHash;
    var run := [Arrive(1, first)];
    assert run[..0] == [];
    s := Apply(prf, configured, start, Arrive(1, first));
    s := Snoc(prf, configured, start, run, s, Arrive(2, second));
    run := run + [Arrive(2, second)];
    s := Snoc(prf, configured, start, run, s, FirstCheck(1));
    run := run + [FirstCheck(1)];
    s := Snoc(prf, configured, start, run, s, FirstCheck(2));
    run := run + [FirstCheck(2)];
    s := Snoc(prf, configured, start, run, s, Check(1));
    run := run + [Check(1)];
    s := Snoc(prf, configured, start, run, s, Check(2));
    assert run + [Check(2)] == Overlap(first, second)[..6];
  }

  /** The premise matters: two overlapping requests that may both succeed, but not with the same
      credentials, can leave the file with the one's and memory with the other's. */
  lemma OverlapDiverges(prf: Prf, configured: string, start: State, first: Request, second: Request)
    requires configured != "" && IsStart(start) && start.secrets.passwordHash == ""
    requires first.Valid() && second.Valid()
    requires Prepare(prf, first, start.secrets.setupToken, configured).Ok?
    requires Prepare(prf, second, start.secrets.setupToken, configured).Ok?
    ensures var end := After(prf, configured, start, Overlap(first, second));
            && end.Some?
            && end.value.secrets.passwordHash != ""
            && Ok(InMemory(end.value)) == Prepare(prf, first, start.secrets.setupToken, configured)
            && end.value.file == Some(Prepare(prf, second, start.secrets.setupToken, configured).value)
  {
    hide Prepare, ValidatePasswordHash;
    PreparedIsStorable(prf, first, start.secrets.setupToken, configured);
    PreparedIsStorable(prf, second, start.secrets.setupToken, configured);
    var s := BothPrepared(prf, configured, start, first, second);
    var run := Overlap(first, second)[..6];
    s := Snoc(prf, configured, start, run, s, Save(1, true));
    run := run + [Save(1, true)];
    s := Snoc(prf, configured, start, run, s, Commit(1));
    run := run + [Commit(1)];
    s := Snoc(prf, configured, start, run, s, Save(2, true));
    run := run + [Save(2, true)];
    s := Snoc(prf, configured, start, run, s, Commit(2));
    assert run + [Commit(2)] == Overlap(first, second);
  }

  lemma Snoc(prf: Prf, configured: string, start: State, run: seq<Step>, s: State, step: Step) returns (next: State)
    requires After(prf, configured, start, run) == Some(s) && Enabled(s, step)
    ensures next == Apply(prf, configured, s, step)
    ensures After(prf, configured, start, run + [step]) == Some(next)
  {
    assert (run + [step])[..|run|] == run;
    next := Apply(prf, configured, s, step);
  }

  // ----- exactly which requests can pull memory and file apart -----

  /** All setup requests that arrive are among these. */
  predicate ArrivalsFrom(steps: seq<Step>, requests: set<Request>) {
    forall i :: 0 <= i < |steps| && steps[i].Arrive? ==> steps[i].request in requests
  }

  /** No interleaving of the requests ends with a password that the file does not have. */
  ghost predicate NeverDiverges(prf: Prf, configured: string, start: State, requests: set<Request>) {
    forall steps :: ArrivalsFrom(steps, requests) && After(prf, configured, start, steps).Some? ==>
      Agree(After(prf, configured, start, steps).value)
  }

  /** The requests that can succeed all come to the same credentials. */
  ghost predicate SameCredentials(prf: Prf, configured: string, start: State, requests: set<Request>) {
    forall a, b :: a in requests && b in requests && a.Valid() && b.Valid() ==>
      var c := Prepare(prf, a, start.secrets.setupToken, configured);
      var d := Prepare(prf, b, start.secrets.setupToken, configured);
      c.Ok? && d.Ok? ==> c == d
  }

  /** A request on its way carries what it was prepared to, and once one has saved, its
      credentials are in the file. */
  ghost predicate OnItsWay(prf: Prf, configured: string, start: State, s: State, requests: set<Request>, id: RequestId)
    requires id in s.requests
  {
    var e := s.requests[id];
    && e.request in requests && Carries(prf, configured, start, e)
    && (e.phase.Stored? ==> s.file == Some(e.phase.credentials))
  }

  /** A request that comes to these credentials. */
  ghost predicate IsWitness(prf: Prf, configured: string, start: State, requests: set<Request>, r: Request,
                            c: Credentials) {
    r in requests && r.Valid() && Prepare(prf, r, start.secrets.setupToken, configured) == Ok(c)
  }

  ghost predicate AllOnTheirWay(prf: Prf, configured: string, start: State, s: State, requests: set<Request>) {
    && (s.secrets.passwordHash == "" ==> s.secrets == start.secrets)
    && (s.secrets.passwordHash != "" ==>
          && s.file == Some(InMemory(s))
          && exists r :: IsWitness(prf, configured, start, requests, r, InMemory(s)))
    && forall id :: id in s.requests ==> OnItsWay(prf, configured, start, s, requests, id)
  }

  lemma WitnessesAgree(prf: Prf, configured: string, start: State, requests: set<Request>, a: Request, c: Credentials,
                       b: Request, d: Credentials)
    requires SameCredentials(prf, configured, start, requests)
    requires IsWitness(prf, configured, start, requests, a, c) && IsWitness(prf, configured, start, requests, b, d)
    ensures c == d
  {
    hide Prepare;
  }

  lemma SaveKeepsWays(prf: Prf, configured: string, start: State, s: State, requests: set<Request>, step: Step)
    requires SameCredentials(prf, configured, start, requests) && AllOnTheirWay(prf, configured, start, s, requests)
    requires Enabled(s, step) && step.Save?
    ensures AllOnTheirWay(prf, configured, start, Apply(prf, configured, s, step), requests)
  {
    hide Prepare, ValidatePasswordHash, SameCredentials;
    var after := Apply(prf, configured, s, step);
    assert OnItsWay(prf, configured, start, s, requests, step.id);
    var a, c := s.requests[step.id].request, s.requests[step.id].phase.credentials;
    assert IsWitness(prf, configured, start, requests, a, c);
    forall id | id in after.requests ensures OnItsWay(prf, configured, start, after, requests, id) {
      assert OnItsWay(prf, configured, start, s, requests, id);
      if s.requests[id].phase.Stored? {
        var e := s.requests[id];
        WitnessesAgree(prf, configured, start, requests, a, c, e.request, e.phase.credentials);
      }
    }
    if s.secrets.passwordHash != "" {
      var r :| IsWitness(prf, configured, start, requests, r, InMemory(s));
      WitnessesAgree(prf, configured, start, requests, a, c, r, InMemory(s));
      assert IsWitness(prf, configured, start, requests, r, InMemory(after));
    }
  }

  lemma ApplyKeepsWays(prf: Prf, configured: string, start: State, s: State, requests: set<Request>, step: Step)
    requires SameCredentials(prf, configured, start, requests) && AllOnTheirWay(prf, configured, start, s, requests)
    requires configured != "" && Enabled(s, step) && (step.Arrive? ==> step.request in requests)
    ensures AllOnTheirWay(prf, configured, start, Apply(prf, configured, s, step), requests)
  {
    hide Prepare, ValidatePasswordHash, SameCredentials;
    if step.Save? {
      SaveKeepsWays(prf, configured, start, s, requests, step);
    } else {
      var after := Apply(prf, configured, s, step);
      forall id | id in after.requests ensures OnItsWay(prf, configured, start, after, requests, id) {
        if id in s.requests { assert OnItsWay(prf, configured, start, s, requests, id); }
      }
      if step.Commit? {
        assert OnItsWay(prf, configured, start, s, requests, step.id);
        var r, c := s.requests[step.id].request, s.requests[step.id].phase.credentials;
        assert IsWitness(prf, configured, start, requests, r, c);
        PreparedIsStorable(prf, r, start.secrets.setupToken, configured);
      }
      if s.secrets.passwordHash != "" {
        var r :| IsWitness(prf, configured, start, requests, r, InMemory(s));
        assert IsWitness(prf, configured, start, requests, r, InMemory(after));
      }
    }
  }

  lemma {:induction false} WaysAlwaysGood(prf: Prf, configured: string, start: State, requests: set<Request>,
                                          steps: seq<Step>)
    requires configured != "" && IsStart(start) && start.secrets.passwordHash == ""
    requires SameCredentials(prf, configured, start, requests)
    requires ArrivalsFrom(steps, requests) && After(prf, configured, start, steps).Some?
    ensures AllOnTheirWay(prf, configured, start, After(prf, configured, start, steps).value, requests)
  {
    hide Apply, Enabled, Prepare, SameCredentials;
    if steps != [] {
      var before := steps[..|steps| - 1];
      WaysAlwaysGood(prf, configured, start, requests, before);
      ApplyKeepsWays(prf, configured, start, After(prf, configured, start, before).value, requests, steps[|steps| - 1]);
    }
  }

  /** Whatever the interleaving, a password in memory is the one in the file, exactly when all
      the requests that can succeed come to the same credentials. */
  lemma DivergesExactly(prf: Prf, configured: string, start: State, requests: set<Request>)
    requires configured != "" && IsStart(start) && start.secrets.passwordHash == ""
    ensures NeverDiverges(prf, configured, start, requests) <==> SameCredentials(prf, configured, start, requests)
  {
    hide After, Prepare, AllOnTheirWay;
    if SameCredentials(prf, configured, start, requests) {
      forall steps | ArrivalsFrom(steps, requests) && After(prf, configured, start, steps).Some?
        ensures Agree(After(prf, configured, start, steps).value)
      {
        WaysAlwaysGood(prf, configured, start, requests, steps);
        WaysAgree(prf, configured, start, After(prf, configured, start, steps).value, requests);
      }
    } else {
      var token := start.secrets.setupToken;
      var a, b :| a in requests && b in requests && a.Valid() && b.Valid()
                  && Prepare(prf, a, token, configured).Ok? && Prepare(prf, b, token, configured).Ok?
                  && Prepare(prf, a, token, configured) != Prepare(prf, b, token, configured);
      OverlapDiverges(prf, configured, start, a, b);
      assert ArrivalsFrom(Overlap(a, b), requests);
    }
  }

  lemma WaysAgree(prf: Prf, configured: string, start: State, s: State, requests: set<Request>)
    requires AllOnTheirWay(prf, configured, start, s, requests)
    ensures Agree(s)
  {}
}
