/** The production build's schema gate: what it decides from the environment, and how long it polls. */
module DeployGate {
  import opened Wrappers
  import opened Numerals
  import opened Text

  const DEFAULT_GATE_WAIT_MS: nat := 600_000
  const MAX_GATE_WAIT_MS: nat := 1_800_000
  const GATE_POLL_MS: nat := 10_000
  const SENSITIVE_PLACEHOLDER := "[SENSITIVE]"

  type Env = map<string, string>

  datatype Skip = PrebuiltAfterMigrate | NotAVercelBuild | OtherEnvironment(name: string)

  datatype Refusal =
    | TokenOnVercel | TokenNamesAnother | EnvironmentMissing | BadWait | NoDatabase | PlaceholderDatabase | NotPostgres

  datatype Plan =
    | Skipping(skip: Skip)
    | Refusing(reason: Refusal)
    | Verifying(waitMs: nat, pollMs: nat, onVercel: bool, commit: Option<string>, databaseUrl: string)

  function ReadVar(env: Env, name: string): string { if name in env then Trim(env[name]) else "" }

  predicate IsHex(c: char) { IsDigit(c) || 'a' <= c <= 'f' || 'A' <= c <= 'F' }

  predicate CommitSha(s: string) { |s| == 40 && forall c | c in s :: IsHex(c) }

  function Lower(c: char): char { if 'A' <= c <= 'Z' then (c as int + 32) as char else c }

  function LowerCase(s: string): string { if s == "" then "" else [Lower(s[0])] + LowerCase(s[1..]) }

  // ---------------------------------------------------------------------------
  //  The wait.
  // ---------------------------------------------------------------------------

  /** None refuses the build. */
  function ParseGateWaitMs(raw: string): Option<nat> {
    var value := Trim(raw);
    if value == "" then Some(DEFAULT_GATE_WAIT_MS)
    else
      match Value(value, 10)
      case None => None
      case Some(ms) => if ms <= MAX_GATE_WAIT_MS then Some(ms) else None
  }

  // ---------------------------------------------------------------------------
  //  The plan.
  // ---------------------------------------------------------------------------

  /** `postgres` says whether a text is a postgres URL. */
  function PlanDeployGate(env: Env, head: Option<string>, postgres: string -> bool): Plan {
    var onVercel := ReadVar(env, "VERCEL_BUILD_IMAGE") != "";
    var token := ReadVar(env, "DEPLOY_GATE_PREBUILT_AFTER_MIGRATE");
    if token != "" then
      if onVercel then Refusing(TokenOnVercel)
      else if !(CommitSha(token) && head.Some? && LowerCase(head.value) == LowerCase(token)) then
        Refusing(TokenNamesAnother)
      else Skipping(PrebuiltAfterMigrate)
    else
      var vercelEnv := ReadVar(env, "VERCEL_ENV");
      if vercelEnv == "" then
        if onVercel || ReadVar(env, "VERCEL") == "1" then Refusing(EnvironmentMissing) else Skipping(NotAVercelBuild)
      else if vercelEnv != "production" then Skipping(OtherEnvironment(vercelEnv))
      else
        var wait := ParseGateWaitMs(if "DEPLOY_GATE_WAIT_MS" in env then env["DEPLOY_GATE_WAIT_MS"] else "");
        var url := ReadVar(env, "DATABASE_URL");
        if wait.None? then Refusing(BadWait)
        else if url == "" then Refusing(NoDatabase)
        else if url == SENSITIVE_PLACEHOLDER then Refusing(PlaceholderDatabase)
        else if !postgres(url) then Refusing(NotPostgres)
        else Verifying(wait.value, GATE_POLL_MS, onVercel, head, url)
  }

  // ---------------------------------------------------------------------------
  //  The plan, case by case.
  // ---------------------------------------------------------------------------

  /** What the environment says of a name: its value without white space around it, nothing when it is not set. */
  predicate Says(env: Env, name: string, value: string) {
    if name in env then value == Trim(env[name]) else value == ""
  }

  /** Nothing asks for ten minutes; a whole number asks for so many milliseconds, half an hour at most. */
  predicate Asks(wait: string, ms: nat) {
    (wait == "" && ms == 10 * 60 * 1000) || (wait != "" && Value(wait, 10) == Some(ms) && ms <= 30 * 60 * 1000)
  }

  predicate SameLetter(a: char, b: char) {
    || a == b
    || ('A' <= a <= 'Z' && b as int == a as int + 32)
    || ('A' <= b <= 'Z' && a as int == b as int + 32)
  }

  /** Forty hexadecimal digits, the commit's own in either case. */
  predicate Names(token: string, head: Option<string>) {
    && |token| == 40 && (forall c | c in token :: '0' <= c <= '9' || 'a' <= c <= 'f' || 'A' <= c <= 'F')
    && head.Some? && |head.value| == 40 && forall k | 0 <= k < 40 :: SameLetter(head.value[k], token[k])
  }

  lemma {:induction false} CaseIs(a: string, b: string)
    ensures |LowerCase(a)| == |a|
    ensures LowerCase(a) == LowerCase(b) <==> |a| == |b| && forall k | 0 <= k < |a| :: SameLetter(a[k], b[k])
  {
    hide Lower, SameLetter;
    if a != "" && b != "" {
      CaseIs(a[1..], b[1..]);
      LetterIs(a[0], b[0]);
      var x, y := LowerCase(a), LowerCase(b);
      assert x[1..] == LowerCase(a[1..]) && y[1..] == LowerCase(b[1..]);
      assert x == [x[0]] + x[1..] && y == [y[0]] + y[1..];
      if |a| == |b| && forall k | 0 <= k < |a| - 1 :: SameLetter(a[1..][k], b[1..][k]) {
        assert forall k | 0 < k < |a| :: a[k] == a[1..][k - 1] && b[k] == b[1..][k - 1];
      }
      if |a| == |b| && forall k | 0 <= k < |a| :: SameLetter(a[k], b[k]) {
        assert forall k | 0 <= k < |a| - 1 :: a[1..][k] == a[k + 1] && b[1..][k] == b[k + 1];
      }
    } else if a != "" {
      CaseIs(a[1..], "");
    } else if b != "" {
      CaseIs("", b[1..]);
    }
  }

  lemma LetterIs(a: char, b: char)
    ensures Lower(a) == Lower(b) <==> SameLetter(a, b)
  {
  }

  lemma NamesIs(token: string, head: Option<string>)
    ensures CommitSha(token) && head.Some? && LowerCase(head.value) == LowerCase(token) <==> Names(token, head)
  {
    hide LowerCase, SameLetter;
    if head.Some? {
      CaseIs(head.value, token);
    }
  }

  lemma AsksIs(env: Env, wait: string, ms: nat)
    requires Says(env, "DEPLOY_GATE_WAIT_MS", wait)
    ensures ParseGateWaitMs(if "DEPLOY_GATE_WAIT_MS" in env then env["DEPLOY_GATE_WAIT_MS"] else "") == Some(ms)
       <==> Asks(wait, ms)
  {
    assert Trim("") == "";
  }

  /** What each reading of the environment comes to: one of eleven plans, each under its own condition. */
  lemma {:induction false} PlanReads(env: Env, head: Option<string>, postgres: string -> bool, image: string,
                                     token: string, vercelEnv: string, vercel: string, wait: string, url: string)
    requires Says(env, "VERCEL_BUILD_IMAGE", image) && Says(env, "DEPLOY_GATE_PREBUILT_AFTER_MIGRATE", token)
    requires Says(env, "VERCEL_ENV", vercelEnv) && Says(env, "VERCEL", vercel)
    requires Says(env, "DEPLOY_GATE_WAIT_MS", wait) && Says(env, "DATABASE_URL", url)
    ensures var plan := PlanDeployGate(env, head, postgres);
            var production := token == "" && vercelEnv == "production";
            var waits := production && exists ms :: Asks(wait, ms);
            && (plan == Refusing(TokenOnVercel) <==> token != "" && image != "")
            && (plan == Refusing(TokenNamesAnother) <==> token != "" && image == "" && !Names(token, head))
            && (plan == Skipping(PrebuiltAfterMigrate) <==> token != "" && image == "" && Names(token, head))
            && (plan == Refusing(EnvironmentMissing)
                <==> token == "" && vercelEnv == "" && (image != "" || vercel == "1"))
            && (plan == Skipping(NotAVercelBuild)
                <==> token == "" && vercelEnv == "" && image == "" && vercel != "1")
            && (forall name ::
                  (plan == Skipping(OtherEnvironment(name))
                   <==> token == "" && vercelEnv == name && name != "" && name != "production"))
            && (plan == Refusing(BadWait) <==> production && !exists ms :: Asks(wait, ms))
            && (plan == Refusing(NoDatabase) <==> waits && url == "")
            && (plan == Refusing(PlaceholderDatabase) <==> waits && url == "[SENSITIVE]")
            && (plan == Refusing(NotPostgres) <==> waits && url != "" && url != "[SENSITIVE]" && !postgres(url))
            && (forall ms, pollMs, onVercel, commit, u ::
                  (plan == Verifying(ms, pollMs, onVercel, commit, u)
                   <==> && production && Asks(wait, ms) && pollMs == 10 * 1000 && onVercel == (image != "")
                        && commit == head && u == url && url != "" && url != "[SENSITIVE]" && postgres(url)))
  {
    hide Trim, ParseGateWaitMs, CommitSha, LowerCase, Names, Asks, Value;
    NamesIs(token, head);
    forall ms: nat
      ensures ParseGateWaitMs(if "DEPLOY_GATE_WAIT_MS" in env then env["DEPLOY_GATE_WAIT_MS"] else "") == Some(ms)
         <==> Asks(wait, ms)
    {
      AsksIs(env, wait, ms);
    }
  }

  // ---------------------------------------------------------------------------
  //  The loop.
  // ---------------------------------------------------------------------------

  datatype Attempt =
    | Current
    | Behind(reasons: seq<string>)
    | Unreachable(reasons: seq<string>)
    | Fatal(reasons: seq<string>)
  {
    predicate Final() { Current? || Fatal? }
  }

  datatype Outcome = Pass(attempts: nat, elapsedMs: int) | Fail(last: Attempt, attempts: nat, elapsedMs: int)

  /**
    * `clock(0)` is read at the start and `clock(n)` after attempt `n`: it never goes back, and a sleep between two
    * attempts takes at least the pause.
    */
  ghost predicate Sleeps(clock: nat -> int, pollMs: nat) {
    clock(0) <= clock(1) && forall n: nat | n >= 1 :: clock(n) + pollMs <= clock(n + 1)
  }

  /** After attempt `n` there is another. */
  predicate Again(attempt: nat -> Attempt, clock: nat -> int, waitMs: nat, pollMs: nat, n: nat) {
    !attempt(n).Final() && waitMs != 0 && clock(n) - clock(0) + pollMs <= waitMs
  }

  predicate IsOutcome(outcome: Outcome, attempt: nat -> Attempt, clock: nat -> int, waitMs: nat, pollMs: nat) {
    var n := outcome.attempts;
    && n >= 1
    && (forall k | 1 <= k < n :: Again(attempt, clock, waitMs, pollMs, k))
    && !Again(attempt, clock, waitMs, pollMs, n)
    && outcome.elapsedMs == clock(n) - clock(0)
    && (outcome.Pass? <==> attempt(n) == Current)
    && (outcome.Fail? ==> outcome.last == attempt(n))
  }

  method RunGateLoop(attempt: nat -> Attempt, clock: nat -> int, waitMs: nat, pollMs: nat) returns (outcome: Outcome)
    requires pollMs > 0 && Sleeps(clock, pollMs)
    ensures IsOutcome(outcome, attempt, clock, waitMs, pollMs)
    ensures outcome.attempts <= waitMs / pollMs + 1
  {
    var start := clock(0);
    var n := 1;
    while true
      invariant n >= 1 && (forall k | 1 <= k < n :: Again(attempt, clock, waitMs, pollMs, k))
      invariant clock(n) - start >= (n - 1) * pollMs
      invariant (n - 1) * pollMs <= waitMs
      decreases waitMs - (n - 1) * pollMs
    {
      var result := attempt(n);
      var elapsedMs := clock(n) - start;
      if result.Current? {
        AttemptsBound(n, waitMs, pollMs);
        return Pass(n, elapsedMs);
      }
      if result.Fatal? || waitMs == 0 || elapsedMs + pollMs > waitMs {
        AttemptsBound(n, waitMs, pollMs);
        return Fail(result, n, elapsedMs);
      }
      OneMore(n, pollMs);
      n := n + 1;
    }
  }

  lemma OneMore(n: nat, pollMs: nat)
    requires n >= 1
    ensures n * pollMs == (n - 1) * pollMs + pollMs
  {
  }

  lemma {:induction false} AttemptsBound(n: nat, waitMs: nat, pollMs: nat)
    requires n >= 1 && pollMs > 0 && (n - 1) * pollMs <= waitMs
    ensures n <= waitMs / pollMs + 1
  {
    var q := waitMs / pollMs;
    assert waitMs == q * pollMs + waitMs % pollMs;
    assert (q + 1) * pollMs == q * pollMs + pollMs;
    if q < n - 1 {
      MulLe(q + 1, n - 1, pollMs);
      assert false;
    }
  }

  lemma MulLe(a: nat, b: nat, c: nat)
    requires a <= b
    ensures a * c <= b * c
  {
  }

  /** The outcome is the only one: the first attempt after which there is no other decides it. */
  lemma OneOutcome(a: Outcome, b: Outcome, attempt: nat -> Attempt, clock: nat -> int, waitMs: nat, pollMs: nat)
    requires IsOutcome(a, attempt, clock, waitMs, pollMs) && IsOutcome(b, attempt, clock, waitMs, pollMs)
    ensures a == b
  {
  }

  lemma OneLast(attempt: nat -> Attempt, clock: nat -> int, waitMs: nat, pollMs: nat, m: nat, n: nat)
    requires m >= 1 && n >= 1 && !Again(attempt, clock, waitMs, pollMs, m) && !Again(attempt, clock, waitMs, pollMs, n)
    requires forall k | 1 <= k < m :: Again(attempt, clock, waitMs, pollMs, k)
    requires forall k | 1 <= k < n :: Again(attempt, clock, waitMs, pollMs, k)
    ensures m == n
  {
  }

  /** Some attempt is ok, and the schedule comes to it. */
  ghost predicate ComesToCurrent(attempt: nat -> Attempt, clock: nat -> int, waitMs: nat, pollMs: nat) {
    exists n: nat | n >= 1 :: attempt(n) == Current && forall k | 1 <= k < n :: Again(attempt, clock, waitMs, pollMs, k)
  }

  /**
    * A database that becomes current is passed exactly when that is within the schedule and nothing fatal comes
    * before.
    */
  lemma PassesExactlyWhen(outcome: Outcome, attempt: nat -> Attempt, clock: nat -> int, waitMs: nat, pollMs: nat)
    requires IsOutcome(outcome, attempt, clock, waitMs, pollMs)
    ensures outcome.Pass? <==> ComesToCurrent(attempt, clock, waitMs, pollMs)
  {
    forall n: nat | n >= 1 && attempt(n) == Current && forall k | 1 <= k < n :: Again(attempt, clock, waitMs, pollMs, k)
      ensures n == outcome.attempts
    {
      OneLast(attempt, clock, waitMs, pollMs, n, outcome.attempts);
    }
  }

  // ---------------------------------------------------------------------------
  //  The build's exit.
  // ---------------------------------------------------------------------------

  /** What can stop a verification besides its attempts: a module that does not load, the watchdog, anything thrown. */
  datatype Trouble = NoTrouble | SchemaConfigFails | AuthFails | Hangs | Throws

  /** Skipped; or verified without trouble, some attempt ok and reached by the schedule. */
  ghost predicate Succeeds(plan: Plan, attempt: nat -> Attempt, clock: nat -> int, trouble: Trouble) {
    || plan.Skipping?
    || (plan.Verifying? && trouble == NoTrouble && ComesToCurrent(attempt, clock, plan.waitMs, plan.pollMs))
  }

  method Exit(env: Env, head: Option<string>, postgres: string -> bool, attempt: nat -> Attempt, clock: nat -> int,
              trouble: Trouble) returns (code: nat)
    requires Sleeps(clock, GATE_POLL_MS)
    ensures code == 0 || code == 1
    ensures code == 0 ==>
              PlanDeployGate(env, head, postgres).Skipping?
              || (PlanDeployGate(env, head, postgres).Verifying? && trouble == NoTrouble
                  && exists n: nat | n >= 1 :: attempt(n) == Current && forall k | 1 <= k < n :: !attempt(k).Final())
    ensures code == 0 <==> Succeeds(PlanDeployGate(env, head, postgres), attempt, clock, trouble)
    ensures ReadVar(env, "VERCEL_BUILD_IMAGE") != "" && ReadVar(env, "VERCEL_ENV") == "production" && code == 0 ==>
              exists n: nat | n >= 1 :: attempt(n) == Current
    ensures (forall n: nat | n >= 1 :: attempt(n) == Current) && trouble == NoTrouble ==>
              (code == 0 <==> !PlanDeployGate(env, head, postgres).Refusing?)
  {
    hide ComesToCurrent;
    var plan := PlanDeployGate(env, head, postgres);
    match plan
    case Skipping(_) => code := 0;
    case Refusing(_) => code := 1;
    case Verifying(waitMs, pollMs, _, _, _) =>
      if trouble != NoTrouble {
        return 1;
      }
      var outcome := RunGateLoop(attempt, clock, waitMs, pollMs);
      PassesExactlyWhen(outcome, attempt, clock, waitMs, pollMs);
      forall k | 1 <= k < outcome.attempts ensures !attempt(k).Final() {
        assert Again(attempt, clock, waitMs, pollMs, k);
      }
      code := if outcome.Pass? then 0 else 1;
  }

  /** A build is skipped only where it is no production build of Vercel's machines, whatever the other variables say. */
  lemma ProductionNeverSkips(env: Env, head: Option<string>, postgres: string -> bool)
    ensures PlanDeployGate(env, head, postgres).Skipping? && ReadVar(env, "VERCEL_BUILD_IMAGE") != "" ==>
              ReadVar(env, "VERCEL_ENV") != "" && ReadVar(env, "VERCEL_ENV") != "production"
              && ReadVar(env, "DEPLOY_GATE_PREBUILT_AFTER_MIGRATE") == ""
    ensures PlanDeployGate(env, head, postgres).Skipping? && ReadVar(env, "VERCEL_ENV") == "production" ==>
              ReadVar(env, "VERCEL_BUILD_IMAGE") == "" && head.Some?
              && LowerCase(head.value) == LowerCase(ReadVar(env, "DEPLOY_GATE_PREBUILT_AFTER_MIGRATE"))
  {
  }
}
