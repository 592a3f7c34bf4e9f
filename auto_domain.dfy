/**
 * The monitoring and failover logic of controllers/autoDomainController.js.
 *
 * Every network call is an input here: what Google Safe Browsing and the
 * reachability probe answered for each configured domain, what the
 * Namecheap API replied to a domain listing or a DNS update. The two loops
 * of the source, the health check over the configured domains and the
 * candidate search, are methods; the rest are functions.
 */
module AutoDomain {
  import opened Wrappers
  import opened Text
  import opened Probing

  // ---------------------------------------------------------------------
  // The rewrite applied to the configured domain list before JSON parsing
  // ---------------------------------------------------------------------

  /** The characters of the class `[a-zA-Z0-9.-]`. */
  predicate IsNameChar(c: char) {
    ('a' <= c <= 'z') || ('A' <= c <= 'Z') || ('0' <= c <= '9') || c == '.' || c == '-'
  }

  /**
   * The global replacement of `/([a-zA-Z0-9.-]+)/g` by `"$1"`, scanning left
   * to right; `inRun` says whether the previous character was a name
   * character, that is, whether a quote has been opened and not yet closed.
   */
  function QuoteFrom(s: string, inRun: bool): string
    decreases |s|
  {
    if s == [] then (if inRun then "\"" else "")
    else if IsNameChar(s[0]) then (if inRun then "" else "\"") + [s[0]] + QuoteFrom(s[1..], true)
    else (if inRun then "\"" else "") + [s[0]] + QuoteFrom(s[1..], false)
  }

  /**
   * Wraps every maximal run of name characters in double quotes; removing
   * the double quotes from the result gives back the input's other
   * characters, so the rewrite only inserts quotes.
   */
  function QuoteNames(s: string): (r: string)
    ensures Unquoted(r) == Unquoted(s)
  {
    UnquotedQuoteFrom(s, false);
    QuoteFrom(s, false)
  }

  /** `s` with every double quote removed. */
  function Unquoted(s: string): string
    decreases |s|
  {
    if s == [] then "" else (if s[0] == '"' then "" else [s[0]]) + Unquoted(s[1..])
  }

  lemma {:induction false} UnquotedAppend(a: string, b: string)
    ensures Unquoted(a + b) == Unquoted(a) + Unquoted(b)
    decreases |a|
  {
    if a != [] {
      assert (a + b)[1..] == a[1..] + b;
      UnquotedAppend(a[1..], b);
    } else {
      assert a + b == b;
    }
  }

  /** An opening or closing quote in front of a character disappears with the quotes. */
  lemma UnquotedQuoted(open: string, c: char)
    requires open == "" || open == "\""
    ensures Unquoted(open + [c]) == Unquoted([c])
  {
    if open != "" {
      assert (open + [c])[1..] == [c];
    }
  }

  lemma {:induction false} UnquotedQuoteFrom(s: string, inRun: bool)
    ensures Unquoted(QuoteFrom(s, inRun)) == Unquoted(s)
    decreases |s|
  {
    if s == [] {
      assert Unquoted("\"") == Unquoted("\""[1..]);
    } else {
      var next := IsNameChar(s[0]);
      var rest := QuoteFrom(s[1..], next);
      var open: string := if next == inRun then "" else "\"";
      var head := open + [s[0]];
      assert QuoteFrom(s, inRun) == head + rest;
      UnquotedAppend(head, rest);
      UnquotedQuoted(open, s[0]);
      assert Unquoted([s[0]]) == (if s[0] == '"' then "" else [s[0]]) + Unquoted([]);
      UnquotedQuoteFrom(s[1..], next);
    }
  }

  lemma {:induction false} QuoteFromRun(w: string)
    requires forall k :: 0 <= k < |w| ==> IsNameChar(w[k])
    ensures QuoteFrom(w, true) == w + "\""
    decreases |w|
  {
    if w != [] {
      QuoteFromRun(w[1..]);
      assert w == [w[0]] + w[1..];
    }
  }

  /** A non-empty run of name characters comes out wrapped in one pair of quotes. */
  lemma QuoteNamesRun(w: string)
    requires |w| >= 1
    requires forall k :: 0 <= k < |w| ==> IsNameChar(w[k])
    ensures QuoteNames(w) == "\"" + w + "\""
  {
    QuoteFromRun(w[1..]);
    assert w == [w[0]] + w[1..];
  }

  lemma {:induction false} QuoteFromSeparator(a: string, c: char, b: string, inRun: bool)
    requires !IsNameChar(c)
    ensures QuoteFrom(a + [c] + b, inRun) == QuoteFrom(a, inRun) + [c] + QuoteFrom(b, false)
    decreases |a|
  {
    if a == [] {
      assert a + [c] + b == [c] + b;
      assert ([c] + b)[1..] == b;
    } else {
      assert (a + [c] + b)[1..] == a[1..] + [c] + b;
      QuoteFromSeparator(a[1..], c, b, IsNameChar(a[0]));
    }
  }

  /**
   * A character outside the class is kept as it is and closes the run
   * before it, so the rewrite works on the pieces between such characters
   * independently. With `QuoteNamesRun` and `QuoteNames("") == ""` this
   * determines the rewrite of every string.
   */
  lemma QuoteNamesSeparator(a: string, c: char, b: string)
    requires !IsNameChar(c)
    ensures QuoteNames(a + [c] + b) == QuoteNames(a) + [c] + QuoteNames(b)
  {
    QuoteFromSeparator(a, c, b, false);
  }

  // ---------------------------------------------------------------------
  // checkDomainStatus
  // ---------------------------------------------------------------------

  /**
   * What the services answered for one configured domain: the Safe
   * Browsing request failed, or it reported a match, or it reported none
   * and then the reachability probe produced `probe`.
   */
  datatype DomainAnswer = SafeBrowsingError | Flagged | Safe(probe: Probe)

  /** The monitor's literal status list, tested with `includes`. */
  const DownStatuses: seq<int> := [400, 301, 403]

  /** A returned status means "down" exactly for 400, 301 and 403. */
  function DownStatus(code: int): (down: bool)
    ensures down <==> (code == 301 || code == 400 || code == 403)
  {
    code in DownStatuses
  }

  /** The probe part of the check: the probe threw, or returned a down status. */
  function Unhealthy(p: Probe): (bad: bool)
    ensures p.ProbeError? ==> bad
    ensures p.Status? ==> (bad <==> p.code == 301 || p.code == 400 || p.code == 403)
  {
    match p
    case ProbeError => true
    case Status(code) => DownStatus(code)
  }

  /**
   * The per-domain condition that sets `issuesDetected`: a failed Safe
   * Browsing request or a match is an issue without any probe (fail-closed);
   * otherwise the probe decides.
   */
  function HasIssue(a: DomainAnswer): (issue: bool)
    ensures !a.Safe? ==> issue
    ensures a.Safe? ==> (issue <==> a.probe.ProbeError? || a.probe.code in {301, 400, 403})
  {
    match a
    case SafeBrowsingError => true
    case Flagged => true
    case Safe(p) => Unhealthy(p)
  }

  /** The flag after the loop has visited `answers`, in order; it is only ever set, never cleared. */
  function AnyIssue(answers: seq<DomainAnswer>): bool
    decreases |answers|
  {
    if answers == [] then false
    else AnyIssue(answers[..|answers| - 1]) || HasIssue(answers[|answers| - 1])
  }

  /** The fold reports an issue exactly when some domain has one. */
  lemma {:induction false} AnyIssueIffSome(answers: seq<DomainAnswer>)
    ensures AnyIssue(answers) <==> exists i :: 0 <= i < |answers| && HasIssue(answers[i])
    decreases |answers|
  {
    if answers != [] {
      var init := answers[..|answers| - 1];
      AnyIssueIffSome(init);
      assert forall i :: 0 <= i < |init| ==> init[i] == answers[i];
    }
  }

  /** The verdict does not depend on the order in which the domains are configured. */
  lemma AnyIssueOrderIndependent(a: seq<DomainAnswer>, b: seq<DomainAnswer>)
    requires multiset(a) == multiset(b)
    ensures AnyIssue(a) == AnyIssue(b)
  {
    AnyIssueIffSome(a);
    AnyIssueIffSome(b);
    if AnyIssue(a) {
      var i :| 0 <= i < |a| && HasIssue(a[i]);
      assert a[i] in multiset(b);
      var j :| 0 <= j < |b| && b[j] == a[i];
    }
    if AnyIssue(b) {
      var j :| 0 <= j < |b| && HasIssue(b[j]);
      assert b[j] in multiset(a);
      var i :| 0 <= i < |a| && a[i] == b[j];
    }
  }

  /**
   * The health check over the configured domains, `answers[i]` being what
   * the services answered for the i-th of them. Returns the verdict and the
   * positions of the domains that were probed for reachability, in the
   * order the probes were made.
   */
  method CheckDomainStatus(answers: seq<DomainAnswer>) returns (issuesDetected: bool, probed: seq<nat>)
    ensures issuesDetected == AnyIssue(answers)
    ensures issuesDetected <==> exists i :: 0 <= i < |answers| && HasIssue(answers[i])
    ensures forall i :: 0 <= i < |answers| ==> (i in probed <==> answers[i].Safe?)
    ensures forall k :: 0 <= k < |probed| ==> probed[k] < |answers|
    ensures forall k, l :: 0 <= k < l < |probed| ==> probed[k] < probed[l]
  {
    issuesDetected := false;
    probed := [];
    for i := 0 to |answers|
      invariant issuesDetected == AnyIssue(answers[..i])
      invariant forall j :: 0 <= j < i ==> (j in probed <==> answers[j].Safe?)
      invariant forall k :: 0 <= k < |probed| ==> probed[k] < i
      invariant forall k, l :: 0 <= k < l < |probed| ==> probed[k] < probed[l]
    {
      assert answers[..i + 1][..i] == answers[..i];
      var answer := answers[i];
      if answer.SafeBrowsingError? {
        issuesDetected := true;
        continue;
      }
      if answer.Flagged? {
        issuesDetected := true;
        continue;
      }
      probed := probed + [i];
      if Unhealthy(answer.probe) {
        issuesDetected := true;
      }
    }
    assert answers[..|answers|] == answers;
    AnyIssueIffSome(answers);
  }

  // ---------------------------------------------------------------------
  // Namecheap calls: fetchDomainList and setCustomDNS
  // ---------------------------------------------------------------------

  /**
   * A Namecheap API call: the request or the XML parsing threw, or the
   * response holds an `Errors` element with an `Error` in it, or it parsed
   * without one and carries `value`.
   */
  datatype ApiReply<T> = ApiThrew | ApiErrors | ApiOk(value: T)

  /** The `Name` attributes of a domain listing, in response order; `[]` on any failure. */
  function FetchDomainList(reply: ApiReply<seq<string>>): (names: seq<string>)
    ensures reply.ApiOk? ==> names == reply.value
    ensures !reply.ApiOk? ==> names == []
  {
    match reply
    case ApiOk(listed) => listed
    case _ => []
  }

  /** The SLD and TLD query parameters of a DNS update; a missing TLD is `undefined`. */
  datatype DnsTarget = DnsTarget(sld: string, tld: Option<string>)

  /** `const [SLD, TLD] = domain.split(".")`. */
  function DnsTargetOf(domain: string): (t: DnsTarget)
    ensures '.' !in t.sld
    ensures t.tld.Some? ==> '.' !in t.tld.value
    ensures t.tld.None? <==> '.' !in domain
    ensures t.tld.None? ==> t.sld == domain
  {
    var labels := Split(domain, '.');
    JoinSplit(domain, '.');
    SplitWithoutSeparator(domain, '.');
    DnsTarget(labels[0], if |labels| >= 2 then Some(labels[1]) else None)
  }

  /**
   * The SLD is the first label and the TLD the second; any further labels
   * are dropped from the request.
   */
  lemma DnsTargetOfLabels(labels: seq<string>)
    requires |labels| >= 2
    requires forall k :: 0 <= k < |labels| ==> '.' !in labels[k]
    ensures DnsTargetOf(Join(labels, '.')) == DnsTarget(labels[0], Some(labels[1]))
  {
    SplitJoin(labels, '.');
  }

  /** The result of `setCustomDNS`: false on an API error element or an exception. */
  function SetCustomDns(reply: ApiReply<()>): (ok: bool)
    ensures ok <==> reply.ApiOk?
  {
    match reply
    case ApiThrew => false
    case ApiErrors => false
    case ApiOk(_) => true
  }

  // ---------------------------------------------------------------------
  // switchDomainIfNeeded
  // ---------------------------------------------------------------------

  /**
   * What the world answers while the k-th listed domain is considered: the
   * re-check of the configured domains made by the gate `checkDomainStatus(domain)`,
   * whose argument is ignored, and the reply to the DNS update for it.
   */
  datatype Round = Round(recheck: seq<DomainAnswer>, dnsReply: ApiReply<()>)

  /** The outward actions of a failover pass, in order. */
  datatype Effect =
    | ListFetched
    | DnsSet(domain: string, ok: bool)
    | ServerRestarted
    | AdminNotified(domain: string)

  /** A round passes the gate and its DNS update succeeds. */
  predicate Switches(r: Round) {
    AnyIssue(r.recheck) && SetCustomDns(r.dnsReply)
  }

  /**
   * The effects of the candidate loop from the k-th listed domain on:
   * failed DNS updates, then possibly one successful update followed by the
   * restart and the mail for that domain, which end the loop.
   */
  function CandidateEffects(names: seq<string>, rounds: seq<Round>, k: nat): seq<Effect>
    requires |rounds| == |names| && k <= |names|
    decreases |names| - k
  {
    if k == |names| then []
    else if !AnyIssue(rounds[k].recheck) then CandidateEffects(names, rounds, k + 1)
    else if SetCustomDns(rounds[k].dnsReply) then [DnsSet(names[k], true), ServerRestarted, AdminNotified(names[k])]
    else [DnsSet(names[k], false)] + CandidateEffects(names, rounds, k + 1)
  }

  /** The effects of a whole pass: nothing at all unless the initial check finds an issue, and then the list fetch first. */
  function SwitchEffects(initial: seq<DomainAnswer>, listing: ApiReply<seq<string>>, rounds: seq<Round>): (e: seq<Effect>)
    requires |rounds| == |FetchDomainList(listing)|
    ensures e == [] <==> !AnyIssue(initial)
    ensures e != [] ==> e[0] == ListFetched
  {
    if !AnyIssue(initial) then []
    else [ListFetched] + CandidateEffects(FetchDomainList(listing), rounds, 0)
  }

  /**
   * One failover pass: check the configured domains (answers `initial`);
   * if any has an issue, fetch the registrar's list and try its domains in
   * order, stopping at the first whose DNS update succeeds, then restart
   * the web server and mail the administrator about that domain.
   */
  method SwitchDomainIfNeeded(initial: seq<DomainAnswer>, listing: ApiReply<seq<string>>, rounds: seq<Round>)
    returns (effects: seq<Effect>)
    requires |rounds| == |FetchDomainList(listing)|
    ensures effects == SwitchEffects(initial, listing, rounds)
    ensures !AnyIssue(initial) ==> effects == []
  {
    effects := [];
    var issuesDetected, _ := CheckDomainStatus(initial);
    if issuesDetected {
      var domains := FetchDomainList(listing);
      effects := [ListFetched];
      for k := 0 to |domains|
        invariant effects + CandidateEffects(domains, rounds, k) == SwitchEffects(initial, listing, rounds)
      {
        var gate, _ := CheckDomainStatus(rounds[k].recheck);
        if gate {
          var ok := SetCustomDns(rounds[k].dnsReply);
          effects := effects + [DnsSet(domains[k], ok)];
          if ok {
            effects := effects + [ServerRestarted, AdminNotified(domains[k])];
            break;
          }
        }
      }
    }
  }

  /**
   * The shape of the candidate loop's effects: failed DNS updates, then
   * possibly one successful update followed by the restart and the mail
   * for that same domain, which end the loop.
   */
  ghost predicate Attempts(e: seq<Effect>)
    decreases |e|
  {
    e == []
    || (e[0].DnsSet? && !e[0].ok && Attempts(e[1..]))
    || (|e| == 3 && e[0].DnsSet? && e[0].ok && e[1] == ServerRestarted && e[2] == AdminNotified(e[0].domain))
  }

  lemma {:induction false} CandidateEffectsAttempts(names: seq<string>, rounds: seq<Round>, k: nat)
    requires |rounds| == |names| && k <= |names|
    ensures Attempts(CandidateEffects(names, rounds, k))
    decreases |names| - k
  {
    if k < |names| {
      CandidateEffectsAttempts(names, rounds, k + 1);
      var rest := CandidateEffects(names, rounds, k + 1);
      assert ([DnsSet(names[k], false)] + rest)[1..] == rest;
    }
  }

  /** In such a sequence a restart is the second-to-last effect and sits between a successful update and the mail for its domain. */
  lemma {:induction false} AttemptsRestartNotify(e: seq<Effect>)
    requires Attempts(e)
    ensures forall i :: 0 <= i < |e| && e[i] == ServerRestarted ==>
      i == |e| - 2 && i >= 1 && e[i + 1].AdminNotified? && e[i - 1] == DnsSet(e[i + 1].domain, true)
    ensures forall i :: 0 <= i < |e| && e[i].AdminNotified? ==> i == |e| - 1 && i >= 2 && e[i - 2] == DnsSet(e[i].domain, true)
    decreases |e|
  {
    if e != [] && !(|e| == 3 && e[0].DnsSet? && e[0].ok) {
      AttemptsRestartNotify(e[1..]);
      assert forall i :: 1 <= i < |e| ==> e[i] == e[1..][i - 1];
    }
  }

  /** A successful update is the third-to-last effect; the list fetch never occurs. */
  lemma {:induction false} AttemptsUpdatePlace(e: seq<Effect>)
    requires Attempts(e)
    ensures forall i :: 0 <= i < |e| && e[i].DnsSet? && e[i].ok ==>
      i == |e| - 3 && e[i + 1] == ServerRestarted && e[i + 2] == AdminNotified(e[i].domain)
    ensures forall i :: 0 <= i < |e| ==> e[i] != ListFetched
    decreases |e|
  {
    if e != [] && !(|e| == 3 && e[0].DnsSet? && e[0].ok) {
      AttemptsUpdatePlace(e[1..]);
      assert forall i :: 1 <= i < |e| ==> e[i] == e[1..][i - 1];
    }
  }

  /**
   * The shape of a whole pass: the list is fetched once, first; the restart
   * and the mail happen at most once, only right after a successful DNS
   * update, and name the domain of that update; nothing follows the mail.
   */
  ghost predicate PassShape(e: seq<Effect>) {
    (e != [] ==> e[0] == ListFetched)
    && (forall i :: 1 <= i < |e| ==> e[i] != ListFetched)
    && (forall i :: 0 <= i < |e| && e[i] == ServerRestarted ==>
          i == |e| - 2 && i >= 1 && e[i + 1].AdminNotified? && e[i - 1] == DnsSet(e[i + 1].domain, true))
    && (forall i :: 0 <= i < |e| && e[i].AdminNotified? ==> i == |e| - 1 && i >= 2 && e[i - 2] == DnsSet(e[i].domain, true))
    && (forall i :: 0 <= i < |e| && e[i].DnsSet? && e[i].ok ==>
          i == |e| - 3 && e[i + 1] == ServerRestarted && e[i + 2] == AdminNotified(e[i].domain))
  }

  lemma AfterFetchRestart(c: seq<Effect>)
    requires Attempts(c)
    ensures var e := [ListFetched] + c;
      (forall i :: 1 <= i < |e| ==> e[i] != ListFetched)
      && (forall i :: 0 <= i < |e| && e[i] == ServerRestarted ==>
            i == |e| - 2 && i >= 1 && e[i + 1].AdminNotified? && e[i - 1] == DnsSet(e[i + 1].domain, true))
  {
    AttemptsRestartNotify(c);
    AttemptsUpdatePlace(c);
    var e := [ListFetched] + c;
    forall i | 1 <= i < |e| ensures e[i] != ListFetched {
      assert e[i] == c[i - 1];
    }
    forall i | 0 <= i < |e| && e[i] == ServerRestarted
      ensures i == |e| - 2 && i >= 1 && e[i + 1].AdminNotified? && e[i - 1] == DnsSet(e[i + 1].domain, true)
    {
      assert e[i] == c[i - 1] && e[i + 1] == c[i];
      if i >= 2 {
        assert e[i - 1] == c[i - 2];
      }
    }
  }

  lemma AfterFetchUpdates(c: seq<Effect>)
    requires Attempts(c)
    ensures var e := [ListFetched] + c;
      (forall i :: 0 <= i < |e| && e[i].AdminNotified? ==> i == |e| - 1 && i >= 2 && e[i - 2] == DnsSet(e[i].domain, true))
      && (forall i :: 0 <= i < |e| && e[i].DnsSet? && e[i].ok ==>
            i == |e| - 3 && e[i + 1] == ServerRestarted && e[i + 2] == AdminNotified(e[i].domain))
  {
    AttemptsRestartNotify(c);
    AttemptsUpdatePlace(c);
    var e := [ListFetched] + c;
    forall i | 0 <= i < |e| && e[i].AdminNotified?
      ensures i == |e| - 1 && i >= 2 && e[i - 2] == DnsSet(e[i].domain, true)
    {
      assert e[i] == c[i - 1];
      if i >= 3 {
        assert e[i - 2] == c[i - 3];
      }
    }
    forall i | 0 <= i < |e| && e[i].DnsSet? && e[i].ok
      ensures i == |e| - 3 && e[i + 1] == ServerRestarted && e[i + 2] == AdminNotified(e[i].domain)
    {
      assert e[i] == c[i - 1] && e[i + 1] == c[i] && e[i + 2] == c[i + 1];
    }
  }

  /** Putting the list fetch in front of the candidate loop's effects gives a pass of that shape. */
  lemma AttemptsAfterFetch(c: seq<Effect>)
    requires Attempts(c)
    ensures PassShape([ListFetched] + c)
  {
    AfterFetchRestart(c);
    AfterFetchUpdates(c);
  }

  /**
   * Every pass has that shape: in particular no DNS update follows a
   * successful one, and the server is restarted at most once.
   */
  lemma SwitchEffectsShape(initial: seq<DomainAnswer>, listing: ApiReply<seq<string>>, rounds: seq<Round>)
    requires |rounds| == |FetchDomainList(listing)|
    ensures PassShape(SwitchEffects(initial, listing, rounds))
  {
    if AnyIssue(initial) {
      var c := CandidateEffects(FetchDomainList(listing), rounds, 0);
      CandidateEffectsAttempts(FetchDomainList(listing), rounds, 0);
      AttemptsAfterFetch(c);
      assert SwitchEffects(initial, listing, rounds) == [ListFetched] + c;
    }
  }

  lemma {:induction false} CandidateEffectsFirstSwitch(names: seq<string>, rounds: seq<Round>, k: nat, m: nat)
    requires |rounds| == |names| && k <= m < |names|
    requires Switches(rounds[m])
    requires forall j :: k <= j < m ==> !Switches(rounds[j])
    ensures var e := CandidateEffects(names, rounds, k);
      |e| >= 3 && e[|e| - 3] == DnsSet(names[m], true) && e[|e| - 2] == ServerRestarted && e[|e| - 1] == AdminNotified(names[m])
    decreases m - k
  {
    if k < m {
      CandidateEffectsFirstSwitch(names, rounds, k + 1, m);
    }
  }

  lemma {:induction false} CandidateEffectsNoSwitch(names: seq<string>, rounds: seq<Round>, k: nat)
    requires |rounds| == |names| && k <= |names|
    requires forall j :: k <= j < |names| ==> !Switches(rounds[j])
    ensures forall i :: 0 <= i < |CandidateEffects(names, rounds, k)| ==> CandidateEffects(names, rounds, k)[i].DnsSet? && !CandidateEffects(names, rounds, k)[i].ok
    decreases |names| - k
  {
    if k < |names| {
      CandidateEffectsNoSwitch(names, rounds, k + 1);
    }
  }

  /**
   * When the initial check finds an issue, the pass switches to the first
   * listed domain whose round passes the gate and whose DNS update
   * succeeds, and to no domain when there is none.
   */
  lemma SwitchTarget(initial: seq<DomainAnswer>, listing: ApiReply<seq<string>>, rounds: seq<Round>, m: nat)
    requires |rounds| == |FetchDomainList(listing)|
    requires AnyIssue(initial)
    requires m < |rounds| && Switches(rounds[m])
    requires forall j :: 0 <= j < m ==> !Switches(rounds[j])
    ensures var e := SwitchEffects(initial, listing, rounds);
      |e| >= 4 && e[|e| - 3] == DnsSet(FetchDomainList(listing)[m], true)
      && e[|e| - 2] == ServerRestarted && e[|e| - 1] == AdminNotified(FetchDomainList(listing)[m])
  {
    CandidateEffectsFirstSwitch(FetchDomainList(listing), rounds, 0, m);
  }

  /** With no round that passes the gate and updates DNS, nothing is restarted and nobody is mailed. */
  lemma NoSwitchWithoutSuccess(initial: seq<DomainAnswer>, listing: ApiReply<seq<string>>, rounds: seq<Round>)
    requires |rounds| == |FetchDomainList(listing)|
    requires forall j :: 0 <= j < |rounds| ==> !Switches(rounds[j])
    ensures forall i :: 0 <= i < |SwitchEffects(initial, listing, rounds)| ==>
      SwitchEffects(initial, listing, rounds)[i] == ListFetched || (SwitchEffects(initial, listing, rounds)[i].DnsSet? && !SwitchEffects(initial, listing, rounds)[i].ok)
  {
    if AnyIssue(initial) {
      var c := CandidateEffects(FetchDomainList(listing), rounds, 0);
      CandidateEffectsNoSwitch(FetchDomainList(listing), rounds, 0);
      assert forall i :: 1 <= i < |c| + 1 ==> SwitchEffects(initial, listing, rounds)[i] == c[i - 1];
    }
  }

  /** The positions of the listed domains that get a DNS update, from the k-th on. */
  function Tried(names: seq<string>, rounds: seq<Round>, k: nat): (idx: seq<nat>)
    requires |rounds| == |names| && k <= |names|
    ensures forall i :: 0 <= i < |idx| ==> k <= idx[i] < |names|
    decreases |names| - k
  {
    if k == |names| then []
    else if !AnyIssue(rounds[k].recheck) then Tried(names, rounds, k + 1)
    else if Switches(rounds[k]) then [k]
    else [k] + Tried(names, rounds, k + 1)
  }

  lemma {:induction false} TriedGated(names: seq<string>, rounds: seq<Round>, k: nat)
    requires |rounds| == |names| && k <= |names|
    ensures forall i :: 0 <= i < |Tried(names, rounds, k)| ==> AnyIssue(rounds[Tried(names, rounds, k)[i]].recheck)
    decreases |names| - k
  {
    if k < |names| {
      TriedGated(names, rounds, k + 1);
      var idx, rest := Tried(names, rounds, k), Tried(names, rounds, k + 1);
      if AnyIssue(rounds[k].recheck) && !Switches(rounds[k]) {
        assert idx == [k] + rest;
        forall i | 1 <= i < |idx| ensures AnyIssue(rounds[idx[i]].recheck) {
          assert idx[i] == rest[i - 1];
        }
      }
    }
  }

  lemma {:induction false} TriedIncreasing(names: seq<string>, rounds: seq<Round>, k: nat)
    requires |rounds| == |names| && k <= |names|
    ensures forall i, l :: 0 <= i < l < |Tried(names, rounds, k)| ==> Tried(names, rounds, k)[i] < Tried(names, rounds, k)[l]
    decreases |names| - k
  {
    if k < |names| {
      TriedIncreasing(names, rounds, k + 1);
      var idx, rest := Tried(names, rounds, k), Tried(names, rounds, k + 1);
      if AnyIssue(rounds[k].recheck) && !Switches(rounds[k]) {
        assert idx == [k] + rest;
        forall i, l | 0 <= i < l < |idx| ensures idx[i] < idx[l] {
          assert idx[l] == rest[l - 1];
          if i > 0 {
            assert idx[i] == rest[i - 1];
          }
        }
      }
    }
  }

  lemma {:induction false} TriedFailBeforeLast(names: seq<string>, rounds: seq<Round>, k: nat)
    requires |rounds| == |names| && k <= |names|
    ensures forall i :: 0 <= i < |Tried(names, rounds, k)| - 1 ==> !Switches(rounds[Tried(names, rounds, k)[i]])
    decreases |names| - k
  {
    if k < |names| {
      TriedFailBeforeLast(names, rounds, k + 1);
      var idx, rest := Tried(names, rounds, k), Tried(names, rounds, k + 1);
      if AnyIssue(rounds[k].recheck) && !Switches(rounds[k]) {
        assert idx == [k] + rest;
        forall i | 1 <= i < |idx| - 1 ensures !Switches(rounds[idx[i]]) {
          assert idx[i] == rest[i - 1];
        }
      }
    }
  }

  lemma {:induction false} TriedComplete(names: seq<string>, rounds: seq<Round>, k: nat, j: nat)
    requires |rounds| == |names| && k <= j < |names|
    requires AnyIssue(rounds[j].recheck)
    requires forall m :: k <= m < j ==> !Switches(rounds[m])
    ensures j in Tried(names, rounds, k)
    decreases j - k
  {
    var idx := Tried(names, rounds, k);
    if k < j {
      TriedComplete(names, rounds, k + 1, j);
      var rest := Tried(names, rounds, k + 1);
      if AnyIssue(rounds[k].recheck) {
        assert idx == [k] + rest;
      } else {
        assert idx == rest;
      }
    } else {
      assert idx[0] == k;
    }
  }

  /**
   * The positions that get a DNS update pass the gate and come in list
   * order; all but the last fail to switch; and every gated position up to
   * the first round that switches is among them.
   */
  lemma TriedInOrder(names: seq<string>, rounds: seq<Round>, k: nat)
    requires |rounds| == |names| && k <= |names|
    ensures var idx := Tried(names, rounds, k);
      (forall i :: 0 <= i < |idx| ==> k <= idx[i] < |names| && AnyIssue(rounds[idx[i]].recheck))
      && (forall i, l :: 0 <= i < l < |idx| ==> idx[i] < idx[l])
      && (forall i :: 0 <= i < |idx| - 1 ==> !Switches(rounds[idx[i]]))
      && (forall j :: (k <= j < |names| && AnyIssue(rounds[j].recheck)
            && (forall m :: k <= m < j ==> !Switches(rounds[m]))) ==> j in idx)
  {
    TriedGated(names, rounds, k);
    TriedIncreasing(names, rounds, k);
    TriedFailBeforeLast(names, rounds, k);
    forall j | k <= j < |names| && AnyIssue(rounds[j].recheck) && (forall m :: k <= m < j ==> !Switches(rounds[m]))
      ensures j in Tried(names, rounds, k)
    {
      TriedComplete(names, rounds, k, j);
    }
  }

  lemma {:induction false} CandidateEffectsTried(names: seq<string>, rounds: seq<Round>, k: nat)
    requires |rounds| == |names| && k <= |names|
    ensures |Tried(names, rounds, k)| <= |CandidateEffects(names, rounds, k)|
    ensures forall i :: 0 <= i < |Tried(names, rounds, k)| ==>
      CandidateEffects(names, rounds, k)[i]
        == DnsSet(names[Tried(names, rounds, k)[i]], SetCustomDns(rounds[Tried(names, rounds, k)[i]].dnsReply))
    ensures forall i :: |Tried(names, rounds, k)| <= i < |CandidateEffects(names, rounds, k)| ==>
      !CandidateEffects(names, rounds, k)[i].DnsSet?
    decreases |names| - k
  {
    if k < |names| {
      var e, t := CandidateEffects(names, rounds, k), Tried(names, rounds, k);
      if !AnyIssue(rounds[k].recheck) {
        CandidateEffectsTried(names, rounds, k + 1);
        assert e == CandidateEffects(names, rounds, k + 1) && t == Tried(names, rounds, k + 1);
      } else if Switches(rounds[k]) {
        assert e == [DnsSet(names[k], true), ServerRestarted, AdminNotified(names[k])] && t == [k];
      } else {
        CandidateEffectsTried(names, rounds, k + 1);
        var e', t' := CandidateEffects(names, rounds, k + 1), Tried(names, rounds, k + 1);
        assert e == [DnsSet(names[k], false)] + e' && t == [k] + t';
        forall i | 1 <= i < |t|
          ensures e[i] == DnsSet(names[t[i]], SetCustomDns(rounds[t[i]].dnsReply))
        {
          assert e[i] == e'[i - 1] && t[i] == t'[i - 1];
        }
        forall i | |t| <= i < |e| ensures !e[i].DnsSet? {
          assert e[i] == e'[i - 1];
        }
      }
    }
  }

  /**
   * After an initial issue, the DNS updates of a pass are exactly those for
   * the positions `Tried` gives, in that order, each with the outcome of its
   * own reply; no other effect is a DNS update.
   */
  lemma CandidatesTriedInOrder(initial: seq<DomainAnswer>, listing: ApiReply<seq<string>>, rounds: seq<Round>)
    requires |rounds| == |FetchDomainList(listing)|
    requires AnyIssue(initial)
    ensures var names, e := FetchDomainList(listing), SwitchEffects(initial, listing, rounds);
      var t := Tried(names, rounds, 0);
      |t| < |e|
      && (forall i :: 0 <= i < |t| ==> e[i + 1] == DnsSet(names[t[i]], SetCustomDns(rounds[t[i]].dnsReply)))
      && (forall i :: |t| + 1 <= i < |e| ==> !e[i].DnsSet?)
  {
    var names := FetchDomainList(listing);
    CandidateEffectsTried(names, rounds, 0);
    var c, t := CandidateEffects(names, rounds, 0), Tried(names, rounds, 0);
    var e := SwitchEffects(initial, listing, rounds);
    assert e == [ListFetched] + c;
    forall i | 0 <= i < |t|
      ensures e[i + 1] == DnsSet(names[t[i]], SetCustomDns(rounds[t[i]].dnsReply))
    {
      assert e[i + 1] == c[i];
    }
    forall i | |t| + 1 <= i < |e| ensures !e[i].DnsSet? {
      assert e[i] == c[i - 1];
    }
  }

  lemma {:induction false} CandidateEffectsGateClosed(names: seq<string>, rounds: seq<Round>, k: nat)
    requires |rounds| == |names| && k <= |names|
    requires forall j :: k <= j < |names| ==> !AnyIssue(rounds[j].recheck)
    ensures CandidateEffects(names, rounds, k) == []
    decreases |names| - k
  {
    if k < |names| {
      CandidateEffectsGateClosed(names, rounds, k + 1);
    }
  }

  /**
   * The gate re-checks the configured domains, not the candidate: when
   * every re-check comes back clean, no listed domain gets a DNS
   * update, whatever state the listed domains themselves are in.
   */
  lemma GateChecksConfiguredDomains(initial: seq<DomainAnswer>, listing: ApiReply<seq<string>>, rounds: seq<Round>)
    requires |rounds| == |FetchDomainList(listing)|
    requires AnyIssue(initial)
    requires forall j :: 0 <= j < |rounds| ==> !AnyIssue(rounds[j].recheck)
    ensures SwitchEffects(initial, listing, rounds) == [ListFetched]
  {
    CandidateEffectsGateClosed(FetchDomainList(listing), rounds, 0);
  }
}
