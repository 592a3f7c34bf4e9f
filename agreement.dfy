/**
 * Facts that connect the two controllers: their two status lists agree,
 * and the names the handlers build are the names the DNS update splits.
 */
module Agreement {
  import opened Wrappers
  import opened Text
  import opened Probing
  import AutoDomain
  import DomainHandlers

  /**
   * For a domain Safe Browsing does not flag, the handler asks for a switch
   * exactly when the scheduled check counts the domain as an issue: the
   * handler's status list and the monitor's list name the same codes.
   */
  lemma SwitchRequiredMatchesMonitor(url: string, probe: Probe)
    requires url != ""
    ensures DomainHandlers.CheckDomainStatus(Some(url), probe).reply.body.SwitchRequired()
      == Some(AutoDomain.HasIssue(AutoDomain.Safe(probe)))
  {
    if probe.Status? {
      assert AutoDomain.DownStatus(probe.code) == DomainHandlers.SwitchStatus(probe.code);
    }
  }

  /**
   * A registered name, with a prefix and a TLD free of dots, reaches the DNS
   * update as SLD = prefix followed by the timestamp, TLD = the TLD.
   */
  lemma CandidateNameDnsTarget(prefix: string, now: nat, tld: string)
    requires '.' !in prefix && '.' !in tld
    ensures AutoDomain.DnsTargetOf(DomainHandlers.CandidateName(prefix, now, tld))
      == AutoDomain.DnsTarget(prefix + DecimalDigits(now), Some(tld))
  {
    var digits := DecimalDigits(now);
    var sld := prefix + digits;
    forall k | 0 <= k < |digits| ensures digits[k] != '.' {
      assert IsDigit(digits[k]);
    }
    assert '.' !in sld;
    assert DomainHandlers.CandidateName(prefix, now, tld) == Join([sld, tld], '.');
    AutoDomain.DnsTargetOfLabels([sld, tld]);
  }
}
