/** The login hook (`useLogin`): environment detection, the seeded development
    identity, NFID initialization and delegation with bounded retries, and the
    mapping from a failure to the message shown to the user. */
module UseLogin {
  import opened Wrappers
  import opened BackendTypes
  import Js
  import Browser
  import Lists

  // ---------------------------------------------------------------------
  // Environment classification
  // ---------------------------------------------------------------------

  datatype Environment = Local | Codespaces | Production

  /** `'app.github.dev'` contains `'github.dev'`, so the second Codespaces test adds nothing. */
  lemma AppGithubDevRedundant(hostname: string)
    ensures Js.Includes(hostname, "app.github.dev") ==> Js.Includes(hostname, "github.dev")
  {
    if Js.Includes(hostname, "app.github.dev") {
      var app: string := "app.github.dev";
      assert app[4..] == "github.dev";
      assert Js.StartsWith(app[4..], "github.dev");
      assert Js.Includes(app, "github.dev");
      Js.IncludesTransitive(hostname, app, "github.dev");
    }
  }

  /** The environment the hostname selects: local when it names localhost or
      the loopback address, Codespaces when it names `github.dev`, else production. */
  function Classify(hostname: string): (e: Environment)
    ensures e == Local <==> Js.Includes(hostname, "localhost") || Js.Includes(hostname, "127.0.0.1")
    ensures e == Codespaces <==>
      !(Js.Includes(hostname, "localhost") || Js.Includes(hostname, "127.0.0.1"))
      && Js.Includes(hostname, "github.dev")
  {
    var isLocal := Js.Includes(hostname, "localhost") || Js.Includes(hostname, "127.0.0.1");
    var isCodespaces := Js.Includes(hostname, "github.dev") || Js.Includes(hostname, "app.github.dev");
    AppGithubDevRedundant(hostname);
    if isLocal then Local else if isCodespaces then Codespaces else Production
  }

  /** Local and Codespaces use the seeded development identity; production uses NFID. */
  predicate UsesSeededIdentity(e: Environment) {
    e == Local || e == Codespaces
  }

  // ---------------------------------------------------------------------
  // Session key and seed
  // ---------------------------------------------------------------------

  newtype byte = x: int | 0 <= x < 256

  const SeedLength: nat := 32

  /** The stored session key when it is truthy, else the freshly generated one. */
  function ChooseSessionKey(stored: Option<string>, generated: string): (k: string)
    ensures Truthy(stored) ==> k == stored.value
    ensures !Truthy(stored) ==> k == generated
  {
    if Truthy(stored) then stored.value else generated
  }

  /** A stored key is reused, so a second login with the same storage uses the
      same key whatever the second fresh key is. */
  lemma SessionKeyStable(stored: Option<string>, fresh1: string, fresh2: string)
    requires Truthy(stored) || fresh1 != ""
    ensures ChooseSessionKey(Some(ChooseSessionKey(stored, fresh1)), fresh2) == ChooseSessionKey(stored, fresh1)
  {
  }

  /** Writing a character code into a `Uint8Array` keeps it modulo 256. */
  function SeedByte(c: char): byte {
    (c as int % 256) as byte
  }

  /** The 32-byte seed: the key's first 32 character codes, zero-padded. */
  function SeedOf(key: string): (seed: seq<byte>)
    ensures |seed| == SeedLength
    ensures forall i :: 0 <= i < SeedLength ==> seed[i] == if i < |key| then SeedByte(key[i]) else 0
  {
    seq(SeedLength, i requires 0 <= i < SeedLength => if i < |key| then SeedByte(key[i]) else 0)
  }

  /** The seed-filling loop. */
  method DeriveSeed(sessionKey: string) returns (seed: seq<byte>)
    ensures seed == SeedOf(sessionKey)
  {
    var a := new byte[SeedLength](_ => 0);
    var i := 0;
    while i < |sessionKey| && i < SeedLength
      invariant 0 <= i <= SeedLength && i <= |sessionKey|
      invariant forall j :: 0 <= j < i ==> a[j] == SeedByte(sessionKey[j])
      invariant forall j :: i <= j < SeedLength ==> a[j] == 0
    {
      a[i] := SeedByte(sessionKey[i]);
      i := i + 1;
    }
    seed := a[..];
  }

  /** The characters of `Math.random().toString(36)`'s digits. */
  predicate IsBase36Key(k: string) {
    forall i :: 0 <= i < |k| ==> ('0' <= k[i] <= '9') || ('a' <= k[i] <= 'z')
  }

  /** Distinct base-36 keys of at most 32 characters give distinct seeds, so
      clearing the stored key and logging in again builds the identity from
      another seed unless the new random key happens to equal the old one. */
  lemma SeedInjective(k1: string, k2: string)
    requires IsBase36Key(k1) && IsBase36Key(k2)
    requires |k1| <= SeedLength && |k2| <= SeedLength
    requires k1 != k2
    ensures SeedOf(k1) != SeedOf(k2)
  {
    if |k1| < |k2| {
      assert SeedOf(k2)[|k1|] == SeedByte(k2[|k1|]) != 0 == SeedOf(k1)[|k1|];
    } else if |k2| < |k1| {
      assert SeedOf(k1)[|k2|] == SeedByte(k1[|k2|]) != 0 == SeedOf(k2)[|k2|];
    } else {
      var i :| 0 <= i < |k1| && k1[i] != k2[i];
      assert SeedOf(k1)[i] == SeedByte(k1[i]) != SeedByte(k2[i]) == SeedOf(k2)[i];
    }
  }

  // ---------------------------------------------------------------------
  // Bounded retries
  // ---------------------------------------------------------------------

  const MaxNfidRetries: nat := 3
  const MaxDelegationRetries: nat := 3

  /** The delegation lifetime requested: 8 hours in nanoseconds. */
  const DelegationTtlNs: nat := 8 * 3_600_000_000_000

  /** The outcome of a retried call: the value and the number of attempts it
      took, or the error of the last attempt. */
  datatype Retried<T> = Succeeded(value: T, attempts: nat) | Exhausted(lastError: string)

  /** Attempts `attempt`, `attempt + 1`, ... up to `max - 1` of a call whose
      k-th attempt answers `outcome(k)`, stopping at the first success. */
  function Retry<T>(outcome: nat -> Call<T>, attempt: nat, max: nat): (r: Retried<T>)
    requires attempt < max
    ensures r.Succeeded? ==>
      attempt < r.attempts <= max && outcome(r.attempts - 1) == Returned(r.value)
      && forall j :: attempt <= j < r.attempts - 1 ==> outcome(j).Raised?
    ensures r.Exhausted? ==>
      (forall j :: attempt <= j < max ==> outcome(j).Raised?)
      && outcome(max - 1) == Raised(r.lastError)
    decreases max - attempt
  {
    match outcome(attempt)
    case Returned(v) => Succeeded(v, attempt + 1)
    case Raised(m) => if attempt + 1 >= max then Exhausted(m) else Retry(outcome, attempt + 1, max)
  }

  /** An opaque handle on an initialized NFID SDK instance. */
  datatype NfidHandle = NfidHandle(serial: nat)

  const InitFailedPattern: string := "NFID initialization failed"

  /** `NFID initialization failed after ${maxRetries} attempts: ${message}`. */
  function InitExhaustedText(lastError: string): string {
    InitFailedPattern + " after " + Js.NatToString(MaxNfidRetries) + " attempts: " + lastError
  }

  /** What the NFID initialization loop yields: the first instance, or the
      wrapped error of the third failure. */
  function NfidInitResult(init: nat -> Call<NfidHandle>): Call<NfidHandle>
  {
    match Retry(init, 0, MaxNfidRetries)
    case Succeeded(nfid, _) => Returned(nfid)
    case Exhausted(m) => Raised(InitExhaustedText(m))
  }

  /** The `NFID.init` retry loop; `init(k)` is the answer to attempt k. The
      throw on the last failure (line 53) is the loop's exit. */
  method InitWithRetry(init: nat -> Call<NfidHandle>) returns (r: Call<NfidHandle>)
    ensures r == NfidInitResult(init)
    ensures r.Returned? ==> exists k :: 0 <= k < MaxNfidRetries && init(k) == Returned(r.value)
  {
    var retryCount := 0;
    var lastError := "";
    while retryCount < MaxNfidRetries
      invariant 0 <= retryCount <= MaxNfidRetries
      invariant forall j :: 0 <= j < retryCount ==> init(j).Raised?
      invariant 0 < retryCount ==> lastError == init(retryCount - 1).message
      invariant retryCount < MaxNfidRetries ==> Retry(init, 0, MaxNfidRetries) == Retry(init, retryCount, MaxNfidRetries)
      decreases MaxNfidRetries - retryCount
    {
      match init(retryCount) {
        case Returned(nfid) =>
          return Returned(nfid);
        case Raised(m) =>
          retryCount := retryCount + 1;
          lastError := m;
      }
    }
    r := Raised(InitExhaustedText(lastError));
  }

  /** The answer to each delegation attempt when, as every attempt does, it
      asks for a lifetime of `DelegationTtlNs`. */
  function Requested(delegations: (nat, nat) -> Call<string>): (answers: nat -> Call<string>)
    ensures forall k: nat :: answers(k) == delegations(k, DelegationTtlNs)
  {
    (k: nat) => delegations(k, DelegationTtlNs)
  }

  /** What the delegation loop yields: the first delegation's principal, or the
      third failure's own error, rethrown. `delegations(k, ttl)` is the answer
      to attempt k when it asks for a lifetime of `ttl` nanoseconds. */
  function DelegationResult(delegations: (nat, nat) -> Call<string>): (r: Call<string>)
    ensures r.Returned? ==>
      exists k :: 0 <= k < MaxDelegationRetries && delegations(k, DelegationTtlNs) == Returned(r.value)
    ensures r.Raised? <==> forall k :: 0 <= k < MaxDelegationRetries ==> delegations(k, DelegationTtlNs).Raised?
    ensures r.Raised? ==> r == delegations(MaxDelegationRetries - 1, DelegationTtlNs)
  {
    match Retry(Requested(delegations), 0, MaxDelegationRetries)
    case Succeeded(p, n) =>
      assert delegations(n - 1, DelegationTtlNs) == Returned(p);
      Returned(p)
    case Exhausted(m) => Raised(m)
  }

  /** The `getDelegation({maxTimeToLive: DelegationTtlNs})` retry loop. */
  method DelegateWithRetry(delegations: (nat, nat) -> Call<string>) returns (r: Call<string>)
    ensures r == DelegationResult(delegations)
    ensures r.Returned? ==>
      exists k :: 0 <= k < MaxDelegationRetries && delegations(k, DelegationTtlNs) == Returned(r.value)
    ensures r.Raised? ==> forall k :: 0 <= k < MaxDelegationRetries ==> delegations(k, DelegationTtlNs).Raised?
  {
    var delegationRetries := 0;
    var lastError := "";
    while delegationRetries < MaxDelegationRetries
      invariant 0 <= delegationRetries <= MaxDelegationRetries
      invariant forall j :: 0 <= j < delegationRetries ==> delegations(j, DelegationTtlNs).Raised?
      invariant 0 < delegationRetries ==> lastError == delegations(delegationRetries - 1, DelegationTtlNs).message
      invariant delegationRetries < MaxDelegationRetries ==>
        Retry(Requested(delegations), 0, MaxDelegationRetries)
        == Retry(Requested(delegations), delegationRetries, MaxDelegationRetries)
      decreases MaxDelegationRetries - delegationRetries
    {
      match delegations(delegationRetries, DelegationTtlNs) {
        case Returned(p) =>
          return Returned(p);
        case Raised(m) =>
          delegationRetries := delegationRetries + 1;
          lastError := m;
      }
    }
    r := Raised(lastError);
  }

  // ---------------------------------------------------------------------
  // Error-message mapping
  // ---------------------------------------------------------------------

  const DevSetupText: string := "Local development setup issue. Please restart dfx with: dfx start --clean"
  const AuthUnavailableText: string := "Authentication service unavailable. Please try again or check your internet connection."
  const ReplicaDownText: string := "Local replica not running. Please start dfx: dfx start --clean"
  const BitcoinText: string := "Bitcoin service integration issue. This is expected in local development."
  /** The emoji prefix as the source file's bytes decode: U+00F0 U+0178 U+201D U+201E. */
  const IframeText: string := "\U{00F0}\U{0178}\U{201D}\U{201E} NFID iframe issue detected. Please try again or refresh the page."
  const InitializingText: string := "\U{00F0}\U{0178}\U{201D}\U{201E} NFID is initializing... Please try again in a moment."

  function FallbackText(message: string): string {
    "Login failed: " + message
  }

  /** The message shown for a login failure: the first substring test that
      matches wins, and a message matching none is shown after `Login failed: `. */
  function UserMessage(message: string): (text: string)
    ensures text in {DevSetupText, AuthUnavailableText, ReplicaDownText, BitcoinText, IframeText, InitializingText}
            || text == FallbackText(message)
    ensures Js.Includes(message, "certificate verification failed") ==> text == DevSetupText
  {
    if Js.Includes(message, "certificate verification failed") then DevSetupText
    else if Js.Includes(message, "Invalid delegation") then AuthUnavailableText
    else if Js.Includes(message, "fetchRootKey") then ReplicaDownText
    else if Js.Includes(message, "threshold signature") then BitcoinText
    else if Js.Includes(message, "iframe not instantiated")
         || Js.Includes(message, "NFID iframe not properly instantiated") then IframeText
    else if Js.Includes(message, InitFailedPattern) then InitializingText
    else FallbackText(message)
  }

  /** The same mapping as a table of (substrings, message) rules. */
  datatype Rule = Rule(patterns: seq<string>, text: string)

  const Rules: seq<Rule> := [
    Rule(["certificate verification failed"], DevSetupText),
    Rule(["Invalid delegation"], AuthUnavailableText),
    Rule(["fetchRootKey"], ReplicaDownText),
    Rule(["threshold signature"], BitcoinText),
    Rule(["iframe not instantiated", "NFID iframe not properly instantiated"], IframeText),
    Rule([InitFailedPattern], InitializingText)
  ]

  predicate Matches(r: Rule, message: string) {
    exists p :: p in r.patterns && Js.Includes(message, p)
  }

  /** The index of the first rule that matches the message, or -1. */
  function FirstMatch(message: string): (k: int)
    ensures -1 <= k < |Rules|
    ensures k >= 0 ==> Matches(Rules[k], message) && forall j :: 0 <= j < k ==> !Matches(Rules[j], message)
    ensures k == -1 ==> forall j :: 0 <= j < |Rules| ==> !Matches(Rules[j], message)
  {
    Lists.FindIndex(Rules, (r: Rule) => Matches(r, message))
  }

  /** Reference definition: the first matching rule's text, else the fallback. */
  function TableMessage(message: string): string {
    var k := FirstMatch(message);
    if k == -1 then FallbackText(message) else Rules[k].text
  }

  lemma MatchesOne(p: string, text: string, message: string)
    ensures Matches(Rule([p], text), message) <==> Js.Includes(message, p)
  {
    if Js.Includes(message, p) {
      assert p in [p];
    }
  }

  lemma MatchesTwo(p: string, q: string, text: string, message: string)
    ensures Matches(Rule([p, q], text), message) <==> Js.Includes(message, p) || Js.Includes(message, q)
  {
    if Js.Includes(message, p) {
      assert p in [p, q];
    } else if Js.Includes(message, q) {
      assert q in [p, q];
    }
  }

  /** The if/else chain is the rule table read top to bottom. */
  lemma UserMessageIsTable(message: string)
    ensures UserMessage(message) == TableMessage(message)
  {
    MatchesOne("certificate verification failed", DevSetupText, message);
    MatchesOne("Invalid delegation", AuthUnavailableText, message);
    MatchesOne("fetchRootKey", ReplicaDownText, message);
    MatchesOne("threshold signature", BitcoinText, message);
    MatchesTwo("iframe not instantiated", "NFID iframe not properly instantiated", IframeText, message);
    MatchesOne(InitFailedPattern, InitializingText, message);
    var k := FirstMatch(message);
    if k == -1 {
      assert !Matches(Rules[0], message) && !Matches(Rules[1], message) && !Matches(Rules[2], message);
      assert !Matches(Rules[3], message) && !Matches(Rules[4], message) && !Matches(Rules[5], message);
    } else {
      assert Matches(Rules[k], message);
      assert 0 < k ==> !Matches(Rules[0], message);
      assert 1 < k ==> !Matches(Rules[1], message);
      assert 2 < k ==> !Matches(Rules[2], message);
      assert 3 < k ==> !Matches(Rules[3], message);
      assert 4 < k ==> !Matches(Rules[4], message);
    }
  }

  /** Every rule's patterns, in order, and the curated messages. */
  const Patterns: seq<string> := EarlierPatterns + [InitFailedPattern]

  /** The patterns tested before `NFID initialization failed`. */
  const EarlierPatterns: seq<string> := [
    "certificate verification failed", "Invalid delegation", "fetchRootKey", "threshold signature",
    "iframe not instantiated", "NFID iframe not properly instantiated"
  ]

  const CuratedTexts: seq<string> :=
    [DevSetupText, AuthUnavailableText, ReplicaDownText, BitcoinText, IframeText, InitializingText]

  /** A message containing some pattern gets a curated text; one containing
      none gets `Login failed: ` followed by the raw message. */
  lemma MessageCases(message: string)
    ensures (exists p :: p in Patterns && Js.Includes(message, p)) ==> UserMessage(message) in CuratedTexts
    ensures (forall p :: p in Patterns ==> !Js.Includes(message, p)) ==>
      UserMessage(message) == FallbackText(message)
  {
  }

  /** An exhausted NFID initialization is always shown a curated text: its
      message begins with `NFID initialization failed`. */
  lemma InitExhaustedIsCurated(lastError: string)
    ensures UserMessage(InitExhaustedText(lastError)) in CuratedTexts
  {
    var m := InitExhaustedText(lastError);
    assert m[..|InitFailedPattern|] == InitFailedPattern;
    assert Js.StartsWith(m, InitFailedPattern);
    assert InitFailedPattern in Patterns;
    MessageCases(m);
  }

  /** The text `InitExhaustedText` puts before the last error, word by word. */
  const InitExhaustedPrefix: string := "NFID " + "initialization " + "failed " + "after " + "3 " + "attempts: "

  lemma InitExhaustedPrefixIsWritten(lastError: string)
    ensures InitExhaustedText(lastError) == InitExhaustedPrefix + lastError
  {
    assert Js.NatToString(MaxNfidRetries) == [Js.DigitChar(3)] == "3";
  }

  /** The characters of the prefix that the proof below relies on. */
  lemma PrefixShape()
    ensures |InitExhaustedPrefix| == 45 && InitExhaustedPrefix[43] == ':' && InitExhaustedPrefix[44] == ' '
    ensures 'c' !in InitExhaustedPrefix && 'v' !in InitExhaustedPrefix
    ensures 'h' !in InitExhaustedPrefix && 'y' !in InitExhaustedPrefix
    ensures InitExhaustedPrefix == "" + ("NFID " + "initialization " + "failed ") + ("after " + "3 " + "attempts: ")
    ensures 'm' !in "NFID " + "initialization " + "failed "
  {
  }

  /** Each earlier pattern starts with a non-space, holds no colon, and has
      a character the prefix lacks where the pattern could lie in it. */
  lemma EarlierPatternShapes()
    ensures var p := "certificate verification failed"; |p| == 31 && p[0] == 'c' && ':' !in p
    ensures var p := "Invalid delegation"; |p| == 18 && p[0] != ' ' && p[2] == 'v' && ':' !in p
    ensures var p := "fetchRootKey"; |p| == 12 && p[0] != ' ' && p[3] == 'c' && ':' !in p
    ensures var p := "threshold signature"; |p| == 19 && p[0] != ' ' && p[1] == 'h' && ':' !in p
    ensures var p := "iframe not instantiated"; |p| == 23 && p[0] != ' ' && p[4] == 'm' && ':' !in p
  {
  }

  lemma NfidIframePatternShape()
    ensures var p := "NFID iframe not properly instantiated"; |p| == 37 && p[0] != ' ' && p[23] == 'y' && ':' !in p
  {
  }

  /** The wrapped text contains pattern `p` exactly when the last error does,
      given a split `x + y + z` of the prefix whose middle lacks `p[k]` and
      whose ends are too short to hold it. */
  lemma PrefixAddsNothing(p: string, k: nat, x: string, y: string, z: string, lastError: string)
    requires x + y + z == InitExhaustedPrefix
    requires k < |p| && |x| <= k && |z| < |p| - k && p[k] !in y
    requires p[0] != ' ' && ':' !in p
    ensures Js.Includes(InitExhaustedPrefix + lastError, p) <==> Js.Includes(lastError, p)
  {
    PrefixShape();
    Js.NotIncludesByChar(x, y, z, p, k);
    Js.IncludesAcrossColonSpace(InitExhaustedPrefix, lastError, p);
  }

  /** None of the earlier patterns lies in the prefix or across its end, so
      each is in the wrapped text exactly when it is in the last error. */
  lemma PrefixAddsNoEarlierPattern(lastError: string)
    ensures forall j :: 0 <= j < |EarlierPatterns| ==>
      (Js.Includes(InitExhaustedPrefix + lastError, EarlierPatterns[j]) <==> Js.Includes(lastError, EarlierPatterns[j]))
  {
    var all := InitExhaustedPrefix;
    PrefixShape();
    EarlierPatternShapes();
    NfidIframePatternShape();
    PrefixAddsNothing("certificate verification failed", 0, "", all, "", lastError);
    PrefixAddsNothing("Invalid delegation", 2, "", all, "", lastError);
    PrefixAddsNothing("fetchRootKey", 3, "", all, "", lastError);
    PrefixAddsNothing("threshold signature", 1, "", all, "", lastError);
    PrefixAddsNothing("iframe not instantiated", 4,
      "", "NFID " + "initialization " + "failed ", "after " + "3 " + "attempts: ", lastError);
    PrefixAddsNothing("NFID iframe not properly instantiated", 23, "", all, "", lastError);
  }

  /** An exhausted NFID initialization shows the "initializing" text exactly
      when its last error names none of the patterns tested before it. */
  lemma InitExhaustedShowsInitializing(lastError: string)
    ensures UserMessage(InitExhaustedText(lastError)) == InitializingText
        <==> forall p :: p in EarlierPatterns ==> !Js.Includes(lastError, p)
  {
    InitExhaustedPrefixIsWritten(lastError);
    PrefixAddsNoEarlierPattern(lastError);
    var m := InitExhaustedPrefix + lastError;
    assert m[..|InitFailedPattern|] == InitFailedPattern;
    assert Js.StartsWith(m, InitFailedPattern);
    if forall p :: p in EarlierPatterns ==> !Js.Includes(lastError, p) {
      forall j | 0 <= j < |EarlierPatterns| ensures !Js.Includes(m, EarlierPatterns[j]) {
        assert EarlierPatterns[j] in EarlierPatterns;
      }
      assert !Js.Includes(m, EarlierPatterns[0]) && !Js.Includes(m, EarlierPatterns[1]);
      assert !Js.Includes(m, EarlierPatterns[2]) && !Js.Includes(m, EarlierPatterns[3]);
      assert !Js.Includes(m, EarlierPatterns[4]) && !Js.Includes(m, EarlierPatterns[5]);
      assert UserMessage(m) == InitializingText;
    } else {
      var p :| p in EarlierPatterns && Js.Includes(lastError, p);
      var j :| 0 <= j < |EarlierPatterns| && EarlierPatterns[j] == p;
      assert Js.Includes(m, EarlierPatterns[j]);
      assert UserMessage(m) in [DevSetupText, AuthUnavailableText, ReplicaDownText, BitcoinText, IframeText];
    }
  }

  // ---------------------------------------------------------------------
  // The login flow
  // ---------------------------------------------------------------------

  const LocalReplicaHost: string := "http://localhost:4943"
  const MainnetHost: string := "https://icp-api.io"

  function RootKeyFailedText(message: string): string {
    "Local replica unavailable. Please run: dfx start --clean\n" + message
  }

  function StatusFailedText(message: string): string {
    "Connection test failed: " + message
  }

  /** The seeded path: the identity from the key's seed, provided the local
      replica's root key and status both answer. */
  function SeededLogin(key: string, principalOfSeed: seq<byte> -> string,
                       rootKey: Call<()>, status: Call<()>): (r: Call<BackendActor>)
    ensures r.Returned? <==> rootKey.Returned? && status.Returned?
    ensures r.Returned? ==> r.value == BackendActor(principalOfSeed(SeedOf(key)), LocalReplicaHost)
    ensures rootKey.Raised? ==> r == Raised(RootKeyFailedText(rootKey.message))
    ensures rootKey.Returned? && status.Raised? ==> r == Raised(StatusFailedText(status.message))
  {
    if rootKey.Raised? then Raised(RootKeyFailedText(rootKey.message))
    else if status.Raised? then Raised(StatusFailedText(status.message))
    else Returned(BackendActor(principalOfSeed(SeedOf(key)), LocalReplicaHost))
  }

  /** The NFID path: an instance, then a delegation. */
  function DelegatedLogin(nfid: Call<NfidHandle>, delegations: (nat, nat) -> Call<string>): (r: Call<BackendActor>)
    ensures nfid.Raised? ==> r == Raised(nfid.message)
    ensures r.Returned? ==>
      nfid.Returned? && r.value.host == MainnetHost
      && exists k :: 0 <= k < MaxDelegationRetries && delegations(k, DelegationTtlNs) == Returned(r.value.principal)
    ensures nfid.Returned? && r.Raised? ==>
      forall k :: 0 <= k < MaxDelegationRetries ==> delegations(k, DelegationTtlNs).Raised?
  {
    if nfid.Raised? then Raised(nfid.message)
    else match DelegationResult(delegations)
      case Returned(p) => Returned(BackendActor(p, MainnetHost))
      case Raised(m) => Raised(m)
  }

  /** The instance `initializeNFID` yields: the cached one, or a fresh initialization. */
  function NfidFor(initialized: bool, instance: Option<NfidHandle>, init: nat -> Call<NfidHandle>): Call<NfidHandle>
  {
    if initialized && instance.Some? then Returned(instance.value) else NfidInitResult(init)
  }

  /** The actor `handleLogin` hands to `setBackendActor`, or the error it caught:
      a success talks to the local replica exactly in the seeded environments,
      with the identity of the session key's seed, and to mainnet otherwise,
      with a delegated principal. */
  function LoginResult(hostname: string, key: string, principalOfSeed: seq<byte> -> string,
                       rootKey: Call<()>, status: Call<()>,
                       nfid: Call<NfidHandle>, delegations: (nat, nat) -> Call<string>): (r: Call<BackendActor>)
    ensures r.Returned? ==> (r.value.host == LocalReplicaHost <==> UsesSeededIdentity(Classify(hostname)))
    ensures r.Returned? && UsesSeededIdentity(Classify(hostname)) ==> r.value.principal == principalOfSeed(SeedOf(key))
    ensures r.Returned? && !UsesSeededIdentity(Classify(hostname)) ==>
      exists k :: 0 <= k < MaxDelegationRetries && delegations(k, DelegationTtlNs) == Returned(r.value.principal)
  {
    if UsesSeededIdentity(Classify(hostname)) then SeededLogin(key, principalOfSeed, rootKey, status)
    else DelegatedLogin(nfid, delegations)
  }

  class LoginHook {
    var isLoggingIn: bool
    var loginError: Option<string>
    var nfidInitialized: bool
    var nfidInstance: Option<NfidHandle>

    constructor ()
      ensures !isLoggingIn && loginError == None && !nfidInitialized && nfidInstance == None
    {
      isLoggingIn := false;
      loginError := None;
      nfidInitialized := false;
      nfidInstance := None;
    }

    /** `initializeNFID()`: the cached instance without a call, otherwise the
        retry loop, recording the instance on success. */
    method InitializeNfid(init: nat -> Call<NfidHandle>) returns (r: Call<NfidHandle>)
      modifies this`nfidInitialized, this`nfidInstance
      ensures r == NfidFor(old(nfidInitialized), old(nfidInstance), init)
      ensures old(nfidInitialized) && old(nfidInstance).Some? ==>
        nfidInitialized == old(nfidInitialized) && nfidInstance == old(nfidInstance)
      ensures !(old(nfidInitialized) && old(nfidInstance).Some?) && r.Returned? ==>
        nfidInitialized && nfidInstance == Some(r.value)
      ensures !(old(nfidInitialized) && old(nfidInstance).Some?) && r.Raised? ==>
        nfidInitialized == old(nfidInitialized) && nfidInstance == old(nfidInstance)
    {
      if nfidInitialized && nfidInstance.Some? {
        return Returned(nfidInstance.value);
      }
      r := InitWithRetry(init);
      if r.Returned? {
        nfidInitialized := true;
        nfidInstance := Some(r.value);
      }
    }

    /** `handleLogin()`. `freshKey` is the random key generated when none is
        stored, `principalOfSeed` the principal of the Ed25519 identity built
        from a seed, `rootKey`/`status` the local replica probes, `init(k)` the
        answer to the k-th NFID initialization and `delegations(k, ttl)` to the
        k-th delegation request for a lifetime of `ttl` nanoseconds. The result is
        what is handed to `setBackendActor`. */
    method HandleLogin(hostname: string, storage: Browser.LocalStorage, freshKey: string,
                       principalOfSeed: seq<byte> -> string, rootKey: Call<()>, status: Call<()>,
                       init: nat -> Call<NfidHandle>, delegations: (nat, nat) -> Call<string>)
      returns (session: Option<BackendActor>)
      modifies this`isLoggingIn, this`loginError, this`nfidInitialized, this`nfidInstance, storage
      ensures var key := ChooseSessionKey(old(storage.GetItem(Browser.SessionKeyItem)), freshKey);
        var result := LoginResult(hostname, key, principalOfSeed, rootKey, status,
                                  NfidFor(old(nfidInitialized), old(nfidInstance), init), delegations);
        (session == if result.Returned? then Some(result.value) else None)
        && (loginError == if result.Raised? then Some(UserMessage(result.message)) else None)
      ensures UsesSeededIdentity(Classify(hostname)) ==>
        storage.items == old(storage.items)[Browser.SessionKeyItem :=
          ChooseSessionKey(old(storage.GetItem(Browser.SessionKeyItem)), freshKey)]
        && nfidInitialized == old(nfidInitialized) && nfidInstance == old(nfidInstance)
      ensures !UsesSeededIdentity(Classify(hostname)) ==> storage.items == old(storage.items)
      ensures !UsesSeededIdentity(Classify(hostname)) ==>
        var n := NfidFor(old(nfidInitialized), old(nfidInstance), init);
        if (old(nfidInitialized) && old(nfidInstance).Some?) || n.Raised? then
          nfidInitialized == old(nfidInitialized) && nfidInstance == old(nfidInstance)
        else
          nfidInitialized && nfidInstance == Some(n.value)
      ensures !isLoggingIn
    {
      isLoggingIn := true;
      loginError := None;
      var result: Call<BackendActor>;
      if UsesSeededIdentity(Classify(hostname)) {
        var sessionKey := ChooseSessionKey(storage.GetItem(Browser.SessionKeyItem), freshKey);
        storage.SetItem(Browser.SessionKeyItem, sessionKey);
        var seed := DeriveSeed(sessionKey);
        if rootKey.Raised? {
          result := Raised(RootKeyFailedText(rootKey.message));
        } else if status.Raised? {
          result := Raised(StatusFailedText(status.message));
        } else {
          result := Returned(BackendActor(principalOfSeed(seed), LocalReplicaHost));
        }
      } else {
        var nfid := InitializeNfid(init);
        if nfid.Raised? {
          result := Raised(nfid.message);
        } else {
          var delegation := DelegateWithRetry(delegations);
          match delegation {
            case Returned(p) => result := Returned(BackendActor(p, MainnetHost));
            case Raised(m) => result := Raised(m);
          }
        }
      }
      match result {
        case Returned(actor) =>
          session := Some(actor);
        case Raised(m) =>
          loginError := Some(UserMessage(m));
          session := None;
      }
      isLoggingIn := false;
    }

    /** The exported `setLoginError`. */
    method SetLoginError(e: Option<string>)
      modifies this`loginError
      ensures loginError == e
    {
      loginError := e;
    }
  }
}
