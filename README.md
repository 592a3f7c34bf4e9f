# Auto domain switch: decision logic

This project models the decision logic of the auto-domain-switch backend,
a Node.js service that checks a configured list of domains every minute and
moves to another domain when one of them has a problem. It models two
controllers:

- `controllers/autoDomainController.js` is the scheduled monitor. It checks
  every configured domain with Google Safe Browsing and then with an HTTP
  probe, folding the results into one `issuesDetected` flag. When that flag
  is set, it lists the domains owned at Namecheap and tries them in order:
  it points a domain's nameservers at the hosting DNS, and after the first
  success it restarts the web server and mails the administrator. It also
  rewrites the configured domain list into JSON before parsing it.
- `controllers/domainController.js` holds three HTTP handlers:
  `/check-domain-status` probes a URL, `/register-new-domain` creates a
  timestamped domain at Namecheap, and `/switch` makes up a timestamped name
  and echoes it.

Every external call is an input value. The Safe Browsing and probe answers
for a configured domain are one `DomainAnswer`: `SafeBrowsingError`,
`Flagged`, or `Safe(probe)`. A probe is `Status(code)` or `ProbeError`. A
Namecheap call is `ApiThrew`, `ApiErrors` (the response holds an `Error`
element) or `ApiOk(value)`. The registrar reply is `RegistrarThrew` or
`RegistrarText(text)`. The clock reading `Date.now()` is a `nat` parameter,
and the environment is a `map<string, string>`.

The two loops of the monitor are methods. `AutoDomain.CheckDomainStatus`
returns the flag together with the positions of the domains it probed.
`AutoDomain.SwitchDomainIfNeeded` returns the ordered list of its outward
effects: list fetched, DNS set, server restarted, administrator notified.
Each method is proved equal to a specification function
(`AnyIssue`, `SwitchEffects`), and the properties are lemmas about those
functions. The other operations are functions too.

Behaviour reproduced as written:

- Safe Browsing failures count as issues. A Safe Browsing request that fails
  marks the domain as an issue (fail-closed), as the code at
  `autoDomainController.js:103-116` does.
- The gate at `autoDomainController.js:200` passes the candidate to
  `checkDomainStatus`, but that function takes no parameter (line 45). So
  each candidate round re-checks the configured domains, and the candidate
  itself is never checked. `Round.recheck` holds the answers of that re-check,
  and `AutoDomain.GateChecksConfiguredDomains` states the consequence.
- No retries, run-lock, domain roles, hosting provisioning or
  partial-failure outcomes exist in the code, so none are modelled.

## Model

| member | source | states |
|---|---|---|
| `AutoDomain.DownStatus` | controllers/autoDomainController.js:89 | A returned status counts as down exactly when it is 301, 400 or 403; every other status counts as working. |
| `AutoDomain.Unhealthy` | controllers/autoDomainController.js:87-102 | A probe counts against the domain when it threw, or when it returned 301, 400 or 403. |
| `AutoDomain.HasIssue` | controllers/autoDomainController.js:67-116 | A failed Safe Browsing request or a Safe Browsing match is an issue whatever the probe would say (fail-closed). For a domain with no match, the probe decides: a throw or a 301, 400 or 403 is an issue. |
| `AutoDomain.CheckDomainStatus` | controllers/autoDomainController.js:45-126 | The flag is set exactly when some configured domain is flagged, had a Safe Browsing error, threw on the probe or returned a down status (false for an empty list). A domain is probed exactly when Safe Browsing reported no match, so flagged domains and Safe Browsing failures are never probed. Probes are made in list order. |
| `AutoDomain.AnyIssueIffSome` | controllers/autoDomainController.js:48-117 | The left-to-right fold of the sticky flag is true exactly when some domain has an issue. |
| `AutoDomain.AnyIssueOrderIndependent` | controllers/autoDomainController.js:48-117 | Reordering the configured domains does not change the verdict. |
| `AutoDomain.QuoteNames` | controllers/autoDomainController.js:14 | The domain-list rewrite changes nothing but double quotes: removing them from input and output gives the same characters in the same order. |
| `AutoDomain.QuoteNamesRun` | controllers/autoDomainController.js:14 | A non-empty run of `[a-zA-Z0-9.-]` characters becomes that run between one pair of double quotes. |
| `AutoDomain.QuoteNamesSeparator` | controllers/autoDomainController.js:14 | A character outside the class is kept unchanged and splits the rewrite into independent halves. Together with `QuoteNamesRun`, this fixes the result for every input. |
| `AutoDomain.FetchDomainList` | controllers/autoDomainController.js:18-43 | The domain names come in response order on success. An API error element or an exception gives `[]`. |
| `AutoDomain.DnsTargetOf` | controllers/autoDomainController.js:130 | SLD and TLD contain no dot. The TLD is `undefined` exactly when the domain has no dot, and then the whole domain is the SLD. |
| `AutoDomain.DnsTargetOfLabels` | controllers/autoDomainController.js:130-134 | For a name of two or more dot-free labels, the SLD is the first label and the TLD is the second; further labels are dropped. |
| `AutoDomain.SetCustomDns` | controllers/autoDomainController.js:136-153 | The DNS update reports success exactly when the API answered without an error element and nothing threw. |
| `AutoDomain.SwitchDomainIfNeeded` | controllers/autoDomainController.js:195-210 | The effects of a pass equal `SwitchEffects`. When the initial check finds no issue, nothing is fetched, set, restarted or mailed. |
| `AutoDomain.SwitchEffects` | controllers/autoDomainController.js:195-210 | A pass has no effect at all exactly when the initial check finds no issue; otherwise its first effect is the list fetch. |
| `AutoDomain.SwitchEffectsShape` | controllers/autoDomainController.js:198-208 | The list is fetched once, first. A successful DNS update is the third-to-last effect and is followed immediately by the restart and then the mail for its domain. So restart and mail happen at most once, and no DNS update follows a successful one. |
| `AutoDomain.TriedInOrder` | controllers/autoDomainController.js:199-206 | The positions of the listed domains that get a DNS update all pass their gate and increase. Every one but the last fails. Every gated position up to the first round that switches is among them. |
| `AutoDomain.CandidatesTriedInOrder` | controllers/autoDomainController.js:198-208 | After an initial issue, the DNS updates of a pass are exactly the updates for the positions given by `Tried`, in that order. Each carries its own reply's outcome, and no other effect is a DNS update. |
| `AutoDomain.SwitchTarget` | controllers/autoDomainController.js:198-208 | After an initial issue, the pass ends by switching to the first listed domain whose round passes the gate and whose DNS update succeeds. |
| `AutoDomain.NoSwitchWithoutSuccess` | controllers/autoDomainController.js:198-208 | When no round both passes the gate and updates DNS, the pass only fetches the list and makes failed DNS updates: no restart and no mail. |
| `AutoDomain.GateChecksConfiguredDomains` | controllers/autoDomainController.js:195-208 | When every re-check of the configured domains comes back clean, no listed domain gets a DNS update, whatever state the listed domains are in. |
| `DomainHandlers.CheckDomainStatus` | controllers/domainController.js:6-46 | A missing or empty `url` gives 400 and sends no request. Otherwise a POST goes to `url`. `switchRequired` is true exactly when the probe threw or returned 400, 301 or 403. The code is 500 exactly when the probe threw, and 200 for any returned status. A 200 body echoes the returned status; a thrown probe gives the unreachable body (`success: false`, no status). |
| `DomainHandlers.SwitchStatus` | controllers/domainController.js:19 | The handler's own status list asks for a switch exactly for 301, 400 and 403. |
| `DomainHandlers.SettingsPresent` | controllers/domainController.js:49-53 | The guard passes exactly when all seven settings are present and non-empty. |
| `DomainHandlers.RegisterNewDomain` | controllers/domainController.js:48-82 | A missing setting gives 500 and sends no request. Otherwise the creation request carries `DOMAIN_PREFIX`, the timestamp, `.` and `TLD`. The code is 200 with that domain exactly when the response text contains `Status="OK"`, 400 for any other text, and 500 when the request threw. A 400 carries the rejection body and a thrown request the failure body, neither naming a domain. |
| `DomainHandlers.CandidateName` | controllers/domainController.js:55 | A new name starts with the prefix and ends with a dot and the TLD. In between there is at least one character, and every character there is a decimal digit; the digits read back as the timestamp and have no leading zero. |
| `DomainHandlers.CandidateNamesDistinct` | controllers/domainController.js:55 | Different timestamps give different domain names for the same prefix and TLD. |
| `DomainHandlers.AcceptedIffMarkerOccurs` | controllers/domainController.js:63 | A registration is accepted exactly when `Status="OK"` occurs at some offset of the response text. |
| `DomainHandlers.SwitchDomain` | controllers/domainController.js:86-100 | The handler answers 200 with `yourwebsite`, the timestamp and `.com` when the log append succeeds, and 500 with the failure body (`success: false`) when it throws. |
| `Text.Split` | controllers/autoDomainController.js:130 | `split` gives at least one piece, and no piece contains the separator. |
| `Text.JoinSplit` | controllers/autoDomainController.js:130 | Joining the pieces of `split` with the separator gives back the original string. |
| `Text.SplitJoin` | controllers/autoDomainController.js:130 | Splitting separator-free pieces that were joined with the separator gives back the pieces. |
| `Text.ContainsIffOccurs` | controllers/domainController.js:63 | `includes` finds the pattern exactly when it occurs at some offset. |
| `Text.DecimalDigits` | controllers/domainController.js:55 | The timestamp is rendered as a non-empty string of decimal digits, with no leading zero except for zero itself, which is `"0"`. |
| `Text.ParseDecimalDigits` | controllers/domainController.js:55 | Reading the rendered digits back gives the timestamp. |
| `Text.DecimalDigitsInjective` | controllers/domainController.js:55 | Different timestamps are rendered differently. |
| `Agreement.SwitchRequiredMatchesMonitor` | controllers/domainController.js:19-45 | For a non-empty `url`, the handler's `switchRequired` equals the monitor's verdict for a domain that Safe Browsing does not flag. The two controllers' separate status lists name the same codes. |
| `Agreement.CandidateNameDnsTarget` | controllers/domainController.js:55 | A name built from a dot-free prefix and TLD reaches a DNS update as SLD = prefix + timestamp and TLD = the TLD. |

## Left out

- HTTP traffic is not modelled. This covers the Safe Browsing POST, the probes and the Namecheap GETs. Their outcomes are inputs. So is axios's own behaviour: it throws on non-2xx statuses (so 400 and 403 arrive through the exception path in practice) and it follows redirects.
- The request URLs are not modelled, including credentials, `ClientIp` and the ignored second argument of `encodeURIComponent` at `autoDomainController.js:132`. Only the DNS target's SLD/TLD and the created domain name are kept.
- xml2js parsing is not modelled. `ApiErrors` stands for an `Errors` element that holds an `Error`, and `ApiThrew` stands for any exception, including a response without `CommandResponse`.
- `JSON.parse` of the rewritten configured list and the `process.env` read at module load are not modelled. The configured domains enter as the sequence of their answers.
- `restartWebServer` and `sendEmailNotification` are not modelled beyond their invocation. They are not awaited, so the model records only that they were invoked, and for which domain. The nginx/IIS command, mail transport and their callbacks are out.
- Console logging, the `fs.appendFileSync` write in `/switch` (only whether it threw is an input) and `Date.now()` (a parameter) are not modelled.
- DomainHandlers.CheckDomainStatus: the body's `url` is modelled as an optional string. A non-string JSON value (a number, `false`, an object) is not modelled.
- DomainHandlers.RegisterNewDomain: a response body that is not a string (where `includes` would throw or behave differently) is not modelled.
- server.js (cron schedule, Express setup), routes/apiRoutes.js (route wiring) and config/db.js (MongoDB connection, `process.exit`) are plumbing and are not modelled.
