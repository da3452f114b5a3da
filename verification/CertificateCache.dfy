/** The TLS service: who gets a certificate, how long it is valid, and when a cached one is handed out again. */
module CertificateCache {
  import opened Text
  import opened DomainFilter
  import NetAddr

  const SECOND: int := 1_000_000_000
  const MINUTE: int := 60 * SECOND

  /** The root's validity; a certificate carries whole seconds. */
  datatype Root = Root(firstSecond: int, lastSecond: int) {
    function NotBefore(): int { firstSecond * SECOND }
    function NotAfter(): int { lastSecond * SECOND }
  }

  datatype Config = Config(lib: Library, root: Root, leafDuration: int, rules: seq<Rule>)

  /** What `NewTlsService` insists on. */
  predicate ValidConfig(cfg: Config) {
    cfg.leafDuration > 0
  }

  // ----- issuing -----

  /** An issued leaf: the name and schemes it was made for, and its encoded validity. */
  datatype Leaf = Leaf(name: string, isIp: bool, schemes: string, notBefore: int, notAfter: int)

  datatype Failure = RootExpired | RootNotYetValid | KeyFailed | SerialFailed | SigningFailed

  datatype Issue = Issued(leaf: Leaf) | Failed(failure: Failure)

  /** What the crypto library answers. */
  datatype Crypto = Crypto(keyOk: bool, serialOk: bool, signOk: bool)

  /** The clock readings of one request: the cache look-up, the first check, the signing, the storing. */
  datatype Moments = Moments(asked: int, checked: int, signed: int, stored: int)

  predicate InOrder(m: Moments) {
    m.asked <= m.checked <= m.signed <= m.stored
  }

  /** `min_time`. */
  function MinTime(a: int, b: int): int {
    if b < a then b else a
  }

  /** The encoding keeps whole seconds. */
  function Encoded(t: int): int {
    t / SECOND * SECOND
  }

  function LeafNotAfter(cfg: Config, now: int): int {
    var notAfter := now + cfg.leafDuration;
    if notAfter > cfg.root.NotAfter() then cfg.root.NotAfter() else notAfter
  }

  function LeafNotBefore(cfg: Config, now: int): int {
    var notBefore := now - MINUTE;
    if notBefore < cfg.root.NotBefore() then cfg.root.NotBefore() else notBefore
  }

  function LeafAt(cfg: Config, name: string, schemes: string, now: int): Leaf {
    var isIp := cfg.lib.parseAddr(name).Some?;
    Leaf(name, isIp, schemes, Encoded(LeafNotBefore(cfg, now)), Encoded(LeafNotAfter(cfg, now)))
  }

  /** `generate_certificate`. */
  function Generate(cfg: Config, name: string, schemes: string, m: Moments, c: Crypto): Issue {
    if m.checked > cfg.root.NotAfter() then Failed(RootExpired)
    else if !c.keyOk then Failed(KeyFailed)
    else if !c.serialOk then Failed(SerialFailed)
    else if cfg.root.NotBefore() > m.signed then Failed(RootNotYetValid)
    else if !c.signOk then Failed(SigningFailed)
    else Issued(LeafAt(cfg, name, schemes, m.signed))
  }

  lemma {:induction false} EncodedBounds(t: int, k: int)
    ensures t - SECOND < Encoded(t) <= t
    ensures k * SECOND <= t ==> k * SECOND <= Encoded(t)
    ensures Encoded(t) <= k * SECOND <==> t < k * SECOND + SECOND
  {
    var q := t / SECOND;
    assert t == q * SECOND + t % SECOND;
  }

  /** Every leaf starts no earlier and ends no later than the root, and has started by the time it is signed. */
  lemma {:induction false} LeafWithinRoot(cfg: Config, name: string, schemes: string, m: Moments, c: Crypto)
    requires ValidConfig(cfg) && Generate(cfg, name, schemes, m, c).Issued?
    ensures var leaf := Generate(cfg, name, schemes, m, c).leaf;
            && leaf.name == name && leaf.schemes == schemes
            && cfg.root.NotBefore() <= leaf.notBefore <= m.signed
            && leaf.notAfter <= cfg.root.NotAfter()
            && (cfg.root.NotBefore() <= cfg.root.NotAfter() ==> cfg.root.NotBefore() <= leaf.notAfter)
  {
    EncodedBounds(LeafNotBefore(cfg, m.signed), cfg.root.firstSecond);
    EncodedBounds(LeafNotAfter(cfg, m.signed), cfg.root.firstSecond);
  }

  /** What is issued and what is not: the root is checked before, its start at the signing, and the crypto must work. */
  lemma {:induction false} IssuesIff(cfg: Config, name: string, schemes: string, m: Moments, c: Crypto)
    ensures var issue := Generate(cfg, name, schemes, m, c);
            && (issue.Issued? <==> m.checked <= cfg.root.NotAfter() && cfg.root.NotBefore() <= m.signed &&
                                   c.keyOk && c.serialOk && c.signOk)
            && (issue == Failed(RootExpired) <==> m.checked > cfg.root.NotAfter())
            && (issue == Failed(KeyFailed) <==> m.checked <= cfg.root.NotAfter() && !c.keyOk)
            && (issue == Failed(SerialFailed) <==> m.checked <= cfg.root.NotAfter() && c.keyOk && !c.serialOk)
            && (issue == Failed(RootNotYetValid) ==> m.signed < cfg.root.NotBefore() && c.keyOk && c.serialOk)
            && (issue == Failed(SigningFailed) ==> cfg.root.NotBefore() <= m.signed && !c.signOk)
  {
  }

  /** A bound as it is encoded: the wanted time, less the fraction of a second that the encoding drops. */
  predicate Rounds(encoded: int, wanted: int) {
    wanted - SECOND < encoded <= wanted
  }

  lemma {:induction false} WholeSeconds(k: int)
    ensures Encoded(k * SECOND) == k * SECOND
  {
  }

  /**
   * How long a leaf is good: it ends the configured duration after its signing, or with the root if
   * that comes first; it starts a minute before its signing, or with the root if that comes later;
   * and it is made out to an address exactly when its name is one.
   */
  lemma {:induction false} LeafLasts(cfg: Config, name: string, schemes: string, m: Moments, c: Crypto)
    requires ValidConfig(cfg) && Generate(cfg, name, schemes, m, c).Issued?
    ensures var leaf, root := Generate(cfg, name, schemes, m, c).leaf, cfg.root;
            var end, start := m.signed + cfg.leafDuration, m.signed - MINUTE;
            && (if end >= root.NotAfter() then leaf.notAfter == root.NotAfter() else Rounds(leaf.notAfter, end))
            && (if start <= root.NotBefore() then leaf.notBefore == root.NotBefore() else Rounds(leaf.notBefore, start))
            && leaf.notAfter <= end && (leaf.isIp <==> cfg.lib.parseAddr(name).Some?)
  {
    WholeSeconds(cfg.root.lastSecond);
    WholeSeconds(cfg.root.firstSecond);
    EncodedBounds(m.signed + cfg.leafDuration, 0);
    EncodedBounds(m.signed - MINUTE, 0);
  }

  /**
   * A leaf lies wholly inside the root's window exactly when it was signed before the root had been
   * over for a minute and a second: the expiry is checked before the key is made, not after.
   */
  lemma {:induction false} LeafInsideRootIff(cfg: Config, name: string, schemes: string, m: Moments, c: Crypto)
    requires ValidConfig(cfg) && Generate(cfg, name, schemes, m, c).Issued?
    requires cfg.root.NotBefore() <= cfg.root.NotAfter()
    ensures var leaf := Generate(cfg, name, schemes, m, c).leaf;
            (cfg.root.NotBefore() <= leaf.notBefore <= cfg.root.NotAfter() &&
             cfg.root.NotBefore() <= leaf.notAfter <= cfg.root.NotAfter())
            <==> m.signed < cfg.root.NotAfter() + MINUTE + SECOND
  {
    LeafWithinRoot(cfg, name, schemes, m, c);
    EncodedBounds(LeafNotBefore(cfg, m.signed), cfg.root.lastSecond);
  }

  /** A key that takes two minutes to make: the leaf starts after the root has ended. */
  lemma {:induction false} SlowKeyEscapes(lib: Library)
    ensures var cfg := Config(lib, Root(0, 1000), MINUTE, []);
            var m := Moments(999 * SECOND, 999 * SECOND, 1119 * SECOND, 1119 * SECOND);
            var issue := Generate(cfg, "a", "", m, Crypto(true, true, true));
            InOrder(m) && issue.Issued? && issue.leaf.notBefore > cfg.root.NotAfter()
  {
  }

  // ----- the cache key -----

  function Key(name: string, schemes: string): string {
    name + "\0" + schemes
  }

  predicate NulFree(s: string) {
    forall i :: 0 <= i < |s| ==> s[i] != '\0'
  }

  /** The texts that `netip.ParseAddr` takes for an address without a zone hold no NUL. */
  ghost predicate PlainAddresses(lib: Library) {
    forall s: string :: lib.parseAddr(s).Some? && lib.parseAddr(s).value.zone == "" ==> NulFree(s)
  }

  lemma {:induction false} KeyInjective(name: string, schemes: string, name': string, schemes': string)
    requires NulFree(name) && NulFree(name')
    ensures Key(name, schemes) == Key(name', schemes') <==> name == name' && schemes == schemes'
  {
    var k, k' := Key(name, schemes), Key(name', schemes');
    if k == k' {
      IndexOfSplit(name, '\0', schemes);
      IndexOfSplit(name', '\0', schemes');
      assert k == name + ['\0'] + schemes && k' == name' + ['\0'] + schemes';
      assert k[..|name|] == name && k'[..|name'|] == name';
      assert k[|name| + 1..] == schemes && k'[|name'| + 1..] == schemes';
    }
  }

  /** Without the check on names the key would not tell requests apart. */
  lemma {:induction false} KeyNeedsTheCheck()
    ensures Key("a\0b", "c") == Key("a", "b\0c")
  {
  }

  lemma {:induction false} ValidNamesAreNulFree(lib: Library, name: string)
    requires PlainAddresses(lib) && ValidCertificateName(lib, name)
    ensures NulFree(name)
  {
    if lib.parseAddr(name).None? {
      forall i | 0 <= i < |name| ensures name[i] != '\0' {
        HostNameChars(name, i);
      }
    }
  }

  // ----- who may ask -----

  datatype Request = Request(isGet: bool, localIp: string, serverName: string, schemes: string)

  /** What the daemon answers meanwhile. */
  datatype Device = Device(inRndis: bool, owns: NetAddr.Addr -> bool)

  datatype Gate = Pass(name: string) | Refuse(status: int)

  /** The checks of `handle_generate`. */
  function GenerateGate(cfg: Config, r: Request, d: Device): Gate {
    var lib := cfg.lib;
    if !r.isGet then Refuse(405)
    else
      var local := lib.parseAddr(TrimSpace(r.localIp));
      if local.None? then Refuse(400)
      else if !d.inRndis then Refuse(403)
      else
        var name := if r.serverName == "" then lib.addrText(local.value) else r.serverName;
        if TrimSpace(name) != name || !ValidCertificateName(lib, name) then Refuse(400)
        else if cfg.rules != [] then
          if Admits(lib, cfg.rules, name) then Pass(name) else Refuse(403)
        else if !d.owns(local.value) then Refuse(403)
        else
          var ip := lib.parseAddr(name);
          if ip.Some? && !d.owns(ip.value) then Refuse(403) else Pass(name)
  }

  /** The status of `handle_ask`. */
  function AskStatus(cfg: Config, isGet: bool, domain: string, d: Device): int {
    var lib := cfg.lib;
    if !isGet then 405
    else
      var name := TrimSpace(domain);
      if name == "" then 400
      else if !d.inRndis then 403
      else if !ValidCertificateName(lib, name) then 400
      else if cfg.rules != [] then
        if Admits(lib, cfg.rules, name) then 200 else 403
      else
        var ip := lib.parseAddr(name);
        if ip.None? || !d.owns(ip.value) then 403 else 200
  }

  /**
   * Who passes: a GET from a parsable local address, in RNDIS mode, for a valid name without blanks
   * around it; with rules, one that they admit; without, from an owned local address, and not for a
   * foreign one. The name is the one asked for, or else the local address.
   */
  lemma {:induction false} PassesIff(cfg: Config, r: Request, d: Device, name: string)
    ensures var local := cfg.lib.parseAddr(TrimSpace(r.localIp));
            GenerateGate(cfg, r, d) == Pass(name) <==>
              && r.isGet && d.inRndis && local.Some?
              && name == (if r.serverName == "" then cfg.lib.addrText(local.value) else r.serverName)
              && TrimSpace(name) == name && ValidCertificateName(cfg.lib, name)
              && (cfg.rules != [] ==> Admits(cfg.lib, cfg.rules, name))
              && (cfg.rules == [] ==> d.owns(local.value))
              && (cfg.rules == [] && cfg.lib.parseAddr(name).Some? ==> d.owns(cfg.lib.parseAddr(name).value))
  {
  }

  /** The other answers: another method, a bad local address or name, and everything that is not allowed. */
  lemma {:induction false} RefusalIff(cfg: Config, r: Request, d: Device)
    ensures var gate, local := GenerateGate(cfg, r, d), cfg.lib.parseAddr(TrimSpace(r.localIp));
            && (gate == Refuse(405) <==> !r.isGet)
            && (gate == Refuse(400) ==> r.isGet && (local.None? || d.inRndis))
            && (r.isGet && local.None? ==> gate == Refuse(400))
            && (r.isGet && local.Some? && !d.inRndis ==> gate == Refuse(403))
            && (gate.Pass? || gate == Refuse(405) || gate == Refuse(400) || gate == Refuse(403))
  {
  }

  /** The answers to a question: which are approved, and why the others are not. */
  lemma {:induction false} AskStatusIff(cfg: Config, isGet: bool, domain: string, d: Device)
    ensures var status, name := AskStatus(cfg, isGet, domain, d), TrimSpace(domain);
            var ip := cfg.lib.parseAddr(name);
            && (status == 405 <==> !isGet)
            && (status == 400 <==> isGet && (name == "" || (d.inRndis && !ValidCertificateName(cfg.lib, name))))
            && (status == 200 <==>
                  && isGet && name != "" && d.inRndis && ValidCertificateName(cfg.lib, name)
                  && (if cfg.rules != [] then Admits(cfg.lib, cfg.rules, name) else ip.Some? && d.owns(ip.value)))
            && (status == 405 || status == 400 || status == 403 || status == 200)
  {
  }

  /** The request that follows an approved question: the same name, at a local address. */
  predicate Follows(domain: string, r: Request) {
    r.isGet && r.serverName == TrimSpace(domain) != ""
  }

  /**
   * With rules, the two end points agree about every name. Without, an approved name is served at
   * every local address that the device owns; what is served there and not approved is exactly the
   * names that are no address.
   */
  lemma {:induction false} AskAgreesWithGenerate(cfg: Config, domain: string, r: Request, d: Device)
    requires Follows(domain, r) && cfg.lib.parseAddr(TrimSpace(r.localIp)).Some?
    ensures cfg.rules != [] ==>
            (AskStatus(cfg, true, domain, d) == 200 <==> GenerateGate(cfg, r, d) == Pass(TrimSpace(domain)))
    ensures cfg.rules == [] && d.owns(cfg.lib.parseAddr(TrimSpace(r.localIp)).value) ==>
              && (AskStatus(cfg, true, domain, d) == 200 ==> GenerateGate(cfg, r, d) == Pass(TrimSpace(domain)))
              && (GenerateGate(cfg, r, d).Pass? ==>
                    (AskStatus(cfg, true, domain, d) != 200 <==> cfg.lib.parseAddr(TrimSpace(domain)).None?))
  {
    assert TrimSpace(TrimSpace(domain)) == TrimSpace(domain);
  }

  // ----- the cache -----

  datatype Entry = Entry(leaf: Leaf, expiresAt: int)

  type Cache = map<string, Entry>

  datatype Answer = Served(leaf: Leaf) | Denied(status: int)

  /** A cached certificate is good for more than a minute. */
  predicate Hits(cache: Cache, key: string, now: int) {
    key in cache && cache[key].expiresAt - now > MINUTE
  }

  function EntryFor(cfg: Config, leaf: Leaf, stored: int): Entry {
    Entry(leaf, MinTime(stored + cfg.leafDuration, cfg.root.NotAfter()))
  }

  datatype Outcome = Outcome(cache: Cache, issue: Issue)

  /** `get_or_generate_certificate`. */
  function GetOrGenerate(cfg: Config, cache: Cache, name: string, schemes: string, m: Moments, c: Crypto): Outcome {
    var key := Key(name, schemes);
    if Hits(cache, key, m.asked) then Outcome(cache, Issued(cache[key].leaf))
    else
      var issue := Generate(cfg, name, schemes, m, c);
      if issue.Failed? then Outcome(cache, issue)
      else Outcome(cache[key := EntryFor(cfg, issue.leaf, m.stored)], issue)
  }

  datatype Event = Event(request: Request, device: Device, moments: Moments, crypto: Crypto)

  /** `handle_generate`. */
  function Handle(cfg: Config, cache: Cache, e: Event): (Cache, Answer) {
    match GenerateGate(cfg, e.request, e.device)
    case Refuse(status) => (cache, Denied(status))
    case Pass(name) =>
      var outcome := GetOrGenerate(cfg, cache, name, e.request.schemes, e.moments, e.crypto);
      match outcome.issue
      case Failed(_) => (outcome.cache, Denied(500))
      case Issued(leaf) => (outcome.cache, Served(leaf))
  }

  /**
   * What one request comes to: refused at the gate, or else answered from the cache, or with a new
   * leaf, or with an internal error. Only a new leaf changes the cache, under its own key.
   */
  lemma {:induction false} AnswerIs(cfg: Config, cache: Cache, e: Event)
    ensures var (after, answer) := Handle(cfg, cache, e);
            match GenerateGate(cfg, e.request, e.device)
            case Refuse(status) => answer == Denied(status) && after == cache
            case Pass(name) =>
              var key := Key(name, e.request.schemes);
              if key in cache && cache[key].expiresAt > e.moments.asked + MINUTE then
                answer == Served(cache[key].leaf) && after == cache
              else match Generate(cfg, name, e.request.schemes, e.moments, e.crypto)
                case Failed(_) => answer == Denied(500) && after == cache
                case Issued(leaf) => answer == Served(leaf) && key in after && forall k :: k in cache && k != key ==>
                                       k in after && after[k] == cache[k]
  {
  }

  // ----- runs -----

  /** Requests in the order in which they held the lock, with the cache before and after each. */
  datatype Run = Run(caches: seq<Cache>, events: seq<Event>, answers: seq<Answer>)

  ghost predicate StepAt(cfg: Config, run: Run, i: nat) {
    && i < |run.events| && i + 1 < |run.caches| && i < |run.answers|
    && InOrder(run.events[i].moments)
    && Handle(cfg, run.caches[i], run.events[i]) == (run.caches[i + 1], run.answers[i])
  }

  ghost predicate IsRun(cfg: Config, run: Run) {
    && |run.caches| == |run.events| + 1 && |run.answers| == |run.events|
    && run.caches[0] == map[]
    && forall i: nat :: i < |run.events| ==> StepAt(cfg, run, i)
  }

  /** Request `j` of the run issued `leaf` for `name` and `schemes` and stored `entry`. */
  ghost predicate IssuedIn(cfg: Config, run: Run, j: nat, name: string, schemes: string, entry: Entry) {
    && j < |run.events| && InOrder(run.events[j].moments)
    && GenerateGate(cfg, run.events[j].request, run.events[j].device) == Pass(name)
    && run.events[j].request.schemes == schemes
    && Generate(cfg, name, schemes, run.events[j].moments, run.events[j].crypto) == Issued(entry.leaf)
    && entry == EntryFor(cfg, entry.leaf, run.events[j].moments.stored)
  }

  ghost predicate Traced(cfg: Config, run: Run, n: nat, key: string, entry: Entry) {
    exists j: nat, name, schemes :: j < n && IssuedIn(cfg, run, j, name, schemes, entry) && key == Key(name, schemes)
  }

  ghost predicate AllTraced(cfg: Config, run: Run, n: nat)
    requires n < |run.caches|
  {
    forall key :: key in run.caches[n] ==> Traced(cfg, run, n, key, run.caches[n][key])
  }

  /** One request keeps the old entries or adds its own. */
  lemma {:induction false} EntryOrigin(cfg: Config, cache: Cache, e: Event, key: string)
    requires key in Handle(cfg, cache, e).0
    ensures var entry := Handle(cfg, cache, e).0[key];
            || (key in cache && entry == cache[key])
            || (&& GenerateGate(cfg, e.request, e.device).Pass?
                && var name := GenerateGate(cfg, e.request, e.device).name;
                && key == Key(name, e.request.schemes)
                && Generate(cfg, name, e.request.schemes, e.moments, e.crypto) == Issued(entry.leaf)
                && entry == EntryFor(cfg, entry.leaf, e.moments.stored))
  {
  }

  lemma {:induction false} StepTraced(cfg: Config, run: Run, i: nat, key: string)
    requires StepAt(cfg, run, i) && key in run.caches[i + 1] && AllTraced(cfg, run, i)
    ensures Traced(cfg, run, i + 1, key, run.caches[i + 1][key])
  {
    var e, entry := run.events[i], run.caches[i + 1][key];
    EntryOrigin(cfg, run.caches[i], e, key);
    if key in run.caches[i] && entry == run.caches[i][key] {
      assert Traced(cfg, run, i, key, entry);
    } else {
      assert IssuedIn(cfg, run, i, GenerateGate(cfg, e.request, e.device).name, e.request.schemes, entry);
    }
  }

  /** Every cache entry was issued and stored by an earlier request under its own key. */
  lemma {:induction false} CacheTraced(cfg: Config, run: Run, n: nat)
    requires IsRun(cfg, run) && n < |run.caches|
    ensures AllTraced(cfg, run, n)
  {
    if n > 0 {
      CacheTraced(cfg, run, n - 1);
      assert StepAt(cfg, run, n - 1);
      forall key | key in run.caches[n] ensures Traced(cfg, run, n, key, run.caches[n][key]) {
        StepTraced(cfg, run, n - 1, key);
      }
    }
  }

  /** A certificate stored by a request is still good for the rest of its minute, less what signing took. */
  lemma {:induction false} HitIsFresh(
      cfg: Config, entry: Entry, name: string, schemes: string, signed: int, stored: int, now: int)
    requires signed <= stored && entry == EntryFor(cfg, LeafAt(cfg, name, schemes, signed), stored)
    requires entry.expiresAt - now > MINUTE
    ensures entry.leaf.notAfter > now + MINUTE - (stored - signed) - SECOND
  {
    EncodedBounds(LeafNotAfter(cfg, signed), 0);
  }

  /** How request `i` was answered: by issuing, or with what request `j` had issued for the same pair. */
  ghost predicate ServedFrom(cfg: Config, run: Run, i: nat, j: nat, name: string, schemes: string, leaf: Leaf)
    requires i < |run.events|
  {
    && j <= i < |run.events|
    && GenerateGate(cfg, run.events[j].request, run.events[j].device) == Pass(name)
    && run.events[j].request.schemes == schemes
    && var m := run.events[j].moments;
    && Generate(cfg, name, schemes, m, run.events[j].crypto) == Issued(leaf)
    && (j < i ==> leaf.notAfter > run.events[i].moments.asked + MINUTE - (m.stored - m.signed) - SECOND)
  }

  lemma {:induction false} HitServed(cfg: Config, run: Run, i: nat, name: string, schemes: string) returns (j: nat)
    requires PlainAddresses(cfg.lib) && i < |run.events| && i < |run.caches| && AllTraced(cfg, run, i)
    requires ValidCertificateName(cfg.lib, name) && Hits(run.caches[i], Key(name, schemes), run.events[i].moments.asked)
    ensures ServedFrom(cfg, run, i, j, name, schemes, run.caches[i][Key(name, schemes)].leaf)
  {
    var key := Key(name, schemes);
    var entry := run.caches[i][key];
    assert Traced(cfg, run, i, key, entry);
    var name', schemes';
    j, name', schemes' :| j < i && IssuedIn(cfg, run, j, name', schemes', entry) && key == Key(name', schemes');
    ValidNamesAreNulFree(cfg.lib, name);
    ValidNamesAreNulFree(cfg.lib, name');
    KeyInjective(name, schemes, name', schemes');
    var m := run.events[j].moments;
    HitIsFresh(cfg, entry, name, schemes, m.signed, m.stored, run.events[i].moments.asked);
  }

  /**
   * Over all runs of requests: whatever is served was issued, by this request or an earlier one,
   * for exactly the name and schemes asked for, a name that is valid and that the rules admit; and
   * a certificate served again is still good for a minute, less the time that its signing took and
   * the fraction of a second that its encoding drops.
   */
  lemma {:induction false} ServedIsRequested(cfg: Config, run: Run, i: nat) returns (j: nat)
    requires IsRun(cfg, run) && PlainAddresses(cfg.lib)
    requires i < |run.events| && run.answers[i].Served?
    ensures var e, leaf := run.events[i], run.answers[i].leaf;
            && GenerateGate(cfg, e.request, e.device) == Pass(leaf.name)
            && ValidCertificateName(cfg.lib, leaf.name) && Admits(cfg.lib, cfg.rules, leaf.name)
            && leaf.schemes == e.request.schemes
            && ServedFrom(cfg, run, i, j, leaf.name, leaf.schemes, leaf)
  {
    CacheTraced(cfg, run, i);
    assert StepAt(cfg, run, i);
    var e := run.events[i];
    var name := GenerateGate(cfg, e.request, e.device).name;
    if Hits(run.caches[i], Key(name, e.request.schemes), e.moments.asked) {
      j := HitServed(cfg, run, i, name, e.request.schemes);
    } else {
      j := i;
    }
  }

  // ----- serving again -----

  /** The requests held the lock one after the other. */
  ghost predicate InTime(run: Run) {
    forall i, j :: 0 <= i < j < |run.events| ==> run.events[i].moments.asked <= run.events[j].moments.asked
  }

  /** While more than a minute is left, a request changes nothing about a cached entry. */
  lemma {:induction false} FreshStays(cfg: Config, cache: Cache, e: Event, key: string)
    requires key in cache && cache[key].expiresAt - e.moments.asked > MINUTE
    ensures var after := Handle(cfg, cache, e).0; key in after && after[key] == cache[key]
  {
  }

  lemma {:induction false} StaysUntil(cfg: Config, run: Run, i: nat, j: nat, key: string)
    requires IsRun(cfg, run) && InTime(run) && i <= j < |run.events|
    requires key in run.caches[i] && run.caches[i][key].expiresAt - run.events[j].moments.asked > MINUTE
    ensures key in run.caches[j] && run.caches[j][key] == run.caches[i][key]
    decreases j - i
  {
    if i < j {
      assert StepAt(cfg, run, i);
      FreshStays(cfg, run.caches[i], run.events[i], key);
      StaysUntil(cfg, run, i + 1, j, key);
    }
  }

  /**
   * What was issued at `i` is served again, the very same leaf, to every later request for the same
   * name and schemes that is let through while more than a minute is left of what was noted for it:
   * the duration from the storing on, but no longer than the root.
   */
  lemma {:induction false} ServedAgain(cfg: Config, run: Run, i: nat, j: nat, name: string, schemes: string, leaf: Leaf)
    requires IsRun(cfg, run) && InTime(run) && i < j < |run.events|
    requires IssuedIn(cfg, run, i, name, schemes, EntryFor(cfg, leaf, run.events[i].moments.stored))
    requires !Hits(run.caches[i], Key(name, schemes), run.events[i].moments.asked)
    requires GenerateGate(cfg, run.events[j].request, run.events[j].device) == Pass(name)
    requires run.events[j].request.schemes == schemes
    requires var m := run.events[i].moments;
             && m.stored + cfg.leafDuration - run.events[j].moments.asked > MINUTE
             && cfg.root.NotAfter() - run.events[j].moments.asked > MINUTE
    ensures run.answers[j] == Served(leaf)
  {
    var key, entry := Key(name, schemes), EntryFor(cfg, leaf, run.events[i].moments.stored);
    StoredAt(cfg, run, i, name, schemes, leaf);
    assert entry.expiresAt - run.events[j].moments.asked > MINUTE;
    StaysUntil(cfg, run, i + 1, j, key);
    AnsweredFrom(cfg, run, j, name, entry);
  }

  lemma {:induction false} AnsweredFrom(cfg: Config, run: Run, j: nat, name: string, entry: Entry)
    requires IsRun(cfg, run) && j < |run.events|
    requires GenerateGate(cfg, run.events[j].request, run.events[j].device) == Pass(name)
    requires var key := Key(name, run.events[j].request.schemes); key in run.caches[j] && run.caches[j][key] == entry
    requires entry.expiresAt - run.events[j].moments.asked > MINUTE
    ensures run.answers[j] == Served(entry.leaf)
  {
    assert StepAt(cfg, run, j);
  }

  lemma {:induction false} StoredAt(cfg: Config, run: Run, i: nat, name: string, schemes: string, leaf: Leaf)
    requires IsRun(cfg, run) && i < |run.events|
    requires IssuedIn(cfg, run, i, name, schemes, EntryFor(cfg, leaf, run.events[i].moments.stored))
    requires !Hits(run.caches[i], Key(name, schemes), run.events[i].moments.asked)
    ensures var key := Key(name, schemes);
            && run.answers[i] == Served(leaf) && key in run.caches[i + 1]
            && run.caches[i + 1][key] == EntryFor(cfg, leaf, run.events[i].moments.stored)
  {
    assert StepAt(cfg, run, i);
  }

  // ----- the service -----

  class TlsService {
    const cfg: Config
    var certCache: Cache

    constructor (cfg: Config)
      requires ValidConfig(cfg)
      ensures this.cfg == cfg && certCache == map[]
    {
      this.cfg, certCache := cfg, map[];
    }

    method GetOrGenerateCertificate(name: string, schemes: string, m: Moments, c: Crypto) returns (issue: Issue)
      modifies `certCache
      ensures Outcome(certCache, issue) == GetOrGenerate(cfg, old(certCache), name, schemes, m, c)
    {
      var key := name + "\0" + schemes;
      if key in certCache && certCache[key].expiresAt - m.asked > MINUTE {
        return Issued(certCache[key].leaf);
      }
      issue := Generate(cfg, name, schemes, m, c);
      if issue.Issued? {
        certCache := certCache[key := Entry(issue.leaf, MinTime(m.stored + cfg.leafDuration, cfg.root.NotAfter()))];
      }
    }

    method HandleGenerate(e: Event) returns (answer: Answer)
      modifies `certCache
      ensures (certCache, answer) == Handle(cfg, old(certCache), e)
    {
      var gate := GenerateGate(cfg, e.request, e.device);
      if gate.Refuse? {
        return Denied(gate.status);
      }
      var issue := GetOrGenerateCertificate(gate.name, e.request.schemes, e.moments, e.crypto);
      answer := if issue.Issued? then Served(issue.leaf) else Denied(500);
    }
  }
}
