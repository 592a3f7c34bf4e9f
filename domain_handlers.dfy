/**
 * The decision logic of the three request handlers in
 * controllers/domainController.js. Each handler maps its inputs (the
 * request body, the environment settings, the clock reading and the
 * outcome of its one outgoing call) to a response status and body; the
 * outgoing request it makes, if any, is part of the result.
 */
module DomainHandlers {
  import opened Wrappers
  import opened Text
  import opened Probing

  /** The response bodies the handlers send; messages are not modelled. */
  datatype Body =
    | NoUrlProvided                     // { success: false, message }
    | DomainDown(status: int)           // { success: true, status, switchRequired: true }
    | DomainWorking(status: int)        // { success: true, status, switchRequired: false }
    | DomainUnreachable                 // { success: false, switchRequired: true, error }
    | MissingEnvironment                // { message }
    | DomainRegistered(domain: string)  // { message, domain }
    | RegistrationRejected              // { message }
    | RegistrationFailed                // { message, error }
    | Switched(newDomain: string)       // { success: true, newDomain }
    | SwitchFailed                      // { success: false, error }
  {
    /** The `switchRequired` field, when the body has one. */
    function SwitchRequired(): Option<bool> {
      match this
      case DomainDown(_) => Some(true)
      case DomainWorking(_) => Some(false)
      case DomainUnreachable => Some(true)
      case _ => None
    }
  }

  datatype Reply = Reply(code: int, body: Body)

  /** The outgoing request a handler makes. */
  datatype Request = ProbePost(url: string) | CreateDomain(domainName: string)

  /** A handler's response together with the request it sent, if it sent one. */
  datatype Exchange = Exchange(reply: Reply, sent: Option<Request>)

  // ---------------------------------------------------------------------
  // checkDomainStatus
  // ---------------------------------------------------------------------

  /** The handler's own literal status list, tested with `includes`. */
  const SwitchStatuses: seq<int> := [400, 301, 403]

  /** A returned status asks for a switch exactly for 400, 301 and 403. */
  function SwitchStatus(code: int): (down: bool)
    ensures down <==> (code == 301 || code == 400 || code == 403)
  {
    code in SwitchStatuses
  }

  /** `!url` for the body's `url` field: absent or the empty string. */
  predicate MissingUrl(url: Option<string>) {
    url.None? || url.value == ""
  }

  /**
   * POST /check-domain-status: validate `url`, post to it (outcome
   * `probe`) and report whether a switch is required.
   */
  function CheckDomainStatus(url: Option<string>, probe: Probe): (x: Exchange)
    ensures MissingUrl(url) <==> x.reply.code == 400
    ensures MissingUrl(url) ==> x.sent.None? && x.reply.body == NoUrlProvided
    ensures !MissingUrl(url) ==> x.sent == Some(ProbePost(url.value))
    ensures !MissingUrl(url) ==> x.reply.body.SwitchRequired() == Some(probe.ProbeError? || probe.code in {301, 400, 403})
    ensures !MissingUrl(url) ==> (x.reply.code == 500 <==> probe.ProbeError?)
    ensures !MissingUrl(url) && probe.Status? ==> x.reply.code == 200
    ensures !MissingUrl(url) && probe.Status? ==>
      (x.reply.body.DomainDown? || x.reply.body.DomainWorking?) && x.reply.body.status == probe.code
    ensures !MissingUrl(url) && probe.ProbeError? ==> x.reply.body == DomainUnreachable
  {
    if MissingUrl(url) then Exchange(Reply(400, NoUrlProvided), None)
    else
      var sent := Some(ProbePost(url.value));
      match probe
      case Status(code) =>
        if SwitchStatus(code) then Exchange(Reply(200, DomainDown(code)), sent)
        else Exchange(Reply(200, DomainWorking(code)), sent)
      case ProbeError => Exchange(Reply(500, DomainUnreachable), sent)
  }

  // ---------------------------------------------------------------------
  // registerNewDomain
  // ---------------------------------------------------------------------

  /** The settings the handler reads from the environment, in the order it tests them. */
  const RequiredSettings: seq<string> :=
    ["DOMAIN_PREFIX", "TLD", "NAMECHEAP_API_URL", "NAMECHEAP_API_USER",
     "NAMECHEAP_API_KEY", "NAMECHEAP_USERNAME", "CLIENT_IP"]

  /** A setting is usable when it is present and not the empty string. */
  predicate IsSet(env: map<string, string>, key: string) {
    key in env && env[key] != ""
  }

  /** The handler's guard, one test per setting, in source order. */
  function SettingsPresent(env: map<string, string>): (ok: bool)
    ensures ok <==> forall k :: 0 <= k < |RequiredSettings| ==> IsSet(env, RequiredSettings[k])
  {
    assert RequiredSettings[0] == "DOMAIN_PREFIX" && RequiredSettings[1] == "TLD";
    assert RequiredSettings[2] == "NAMECHEAP_API_URL" && RequiredSettings[3] == "NAMECHEAP_API_USER";
    assert RequiredSettings[4] == "NAMECHEAP_API_KEY" && RequiredSettings[5] == "NAMECHEAP_USERNAME";
    assert RequiredSettings[6] == "CLIENT_IP";
    IsSet(env, "DOMAIN_PREFIX") && IsSet(env, "TLD") && IsSet(env, "NAMECHEAP_API_URL")
    && IsSet(env, "NAMECHEAP_API_USER") && IsSet(env, "NAMECHEAP_API_KEY")
    && IsSet(env, "NAMECHEAP_USERNAME") && IsSet(env, "CLIENT_IP")
  }

  /**
   * The template `${prefix}${now}.${tld}`: the prefix, then the decimal
   * digits of `now`, without a leading zero, and nothing else up to the dot
   * that precedes the TLD.
   */
  function CandidateName(prefix: string, now: nat, tld: string): (name: string)
    ensures |name| >= |prefix| + 2 + |tld|
    ensures name[..|prefix|] == prefix && name[|name| - |tld|..] == tld
    ensures name[|name| - |tld| - 1] == '.'
    ensures forall i :: |prefix| <= i < |name| - |tld| - 1 ==> IsDigit(name[i])
    ensures ParseDecimal(name[|prefix|..|name| - |tld| - 1]) == now
    ensures |name| - |tld| - |prefix| == 2 || name[|prefix|] != '0'
  {
    var digits := DecimalDigits(now);
    var name := prefix + digits + "." + tld;
    assert forall i :: |prefix| <= i < |name| - |tld| - 1 ==> name[i] == digits[i - |prefix|];
    assert name[|prefix|..|name| - |tld| - 1] == digits;
    ParseDecimalDigits(now);
    name
  }

  /** Two different clock readings give two different names for the same prefix and TLD. */
  lemma CandidateNamesDistinct(prefix: string, tld: string, a: nat, b: nat)
    requires a != b
    ensures CandidateName(prefix, a, tld) != CandidateName(prefix, b, tld)
  {
  }

  /** What the registrar call produced: an exception, or the response text. */
  datatype RegistrarReply = RegistrarThrew | RegistrarText(text: string)

  /** The marker of a successful `namecheap.domains.create` response. */
  const StatusOk: string := "Status=\"OK\""

  /** The registration is accepted when the response text contains `Status="OK"`. */
  predicate Accepted(reply: RegistrarReply) {
    reply.RegistrarText? && Contains(reply.text, StatusOk)
  }

  /**
   * POST /register-new-domain: check the seven settings, build the name
   * from the clock reading `now`, request its creation (outcome `reply`).
   */
  function RegisterNewDomain(env: map<string, string>, now: nat, reply: RegistrarReply): (x: Exchange)
    ensures !SettingsPresent(env) ==> x == Exchange(Reply(500, MissingEnvironment), None)
    ensures SettingsPresent(env) ==>
      x.sent == Some(CreateDomain(CandidateName(env["DOMAIN_PREFIX"], now, env["TLD"])))
    ensures x.reply.code == 200 <==> SettingsPresent(env) && Accepted(reply)
    ensures x.reply.code == 200 ==> x.reply.body == DomainRegistered(x.sent.value.domainName)
    ensures x.reply.code == 400 <==> SettingsPresent(env) && reply.RegistrarText? && !Accepted(reply)
    ensures x.reply.code == 500 <==> !SettingsPresent(env) || reply.RegistrarThrew?
    ensures x.reply.code == 400 ==> x.reply.body == RegistrationRejected
    ensures SettingsPresent(env) && reply.RegistrarThrew? ==> x.reply.body == RegistrationFailed
  {
    if !SettingsPresent(env) then Exchange(Reply(500, MissingEnvironment), None)
    else
      var newDomain := CandidateName(env["DOMAIN_PREFIX"], now, env["TLD"]);
      var sent := Some(CreateDomain(newDomain));
      match reply
      case RegistrarText(text) =>
        if Contains(text, StatusOk) then Exchange(Reply(200, DomainRegistered(newDomain)), sent)
        else Exchange(Reply(400, RegistrationRejected), sent)
      case RegistrarThrew => Exchange(Reply(500, RegistrationFailed), sent)
  }

  /** A response counts as accepted exactly when `Status="OK"` appears somewhere in its text. */
  lemma AcceptedIffMarkerOccurs(text: string)
    ensures Accepted(RegistrarText(text)) <==> exists i: nat :: OccursAt(text, StatusOk, i)
  {
    ContainsIffOccurs(text, StatusOk);
  }

  // ---------------------------------------------------------------------
  // switchDomain
  // ---------------------------------------------------------------------

  /**
   * POST /switch: name a domain from the clock reading `now` and echo it;
   * `logAppended` is whether appending to the switch log succeeded, the
   * only call in the handler that can throw.
   */
  function SwitchDomain(now: nat, logAppended: bool): (r: Reply)
    ensures r.code == 200 <==> logAppended
    ensures r.code == 500 <==> !logAppended
    ensures logAppended ==> r.body == Switched(CandidateName("yourwebsite", now, "com"))
    ensures !logAppended ==> r.body == SwitchFailed
  {
    var newDomain := "yourwebsite" + DecimalDigits(now) + ".com";
    assert newDomain == CandidateName("yourwebsite", now, "com");
    if logAppended then Reply(200, Switched(newDomain)) else Reply(500, SwitchFailed)
  }
}
