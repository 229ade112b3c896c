# Elemta: verified core

This project models the parts of Elemta, a mail server written in Go, whose correctness
spans several functions or several threads, and proves what they promise. Code that
computes is a function; code that loops or changes state is a method or a class, proved
equal to a function of its inputs or of the old state; code that runs concurrently is a
state machine with one step per mutex section, and its theorems hold in every state of
every run, for any number of callers in any order.

| files | component |
|---|---|
| `ArcCanonical`, `ArcBodyReader`, `ArcMessage`, `ArcTags`, `ArcSelect`, `ArcChain`, `ArcCollect`, `ArcVerify`, `ArcSeal`, `ArcFields`, `ArcSigned`, `ArcHops`, `ArcReader` | ARC sealing and verification (RFC 8617 sections 4.1.2, 4.1.3, 5.1 and 5.2, over the canonical forms of RFC 6376 sections 3.4.2 to 3.4.4) |
| `Lifecycle` | starting and stopping the API server |
| `LoginThrottle` | the two sliding windows on failed logins |
| `Networks`, `Firewall`, `Slots` | address prefixes, blocks and the firewall plan, connection slots |
| `TomlLines`, `TomlEdit`, `TomlSettings`, `TomlComments` | editing one setting of a TOML file |
| `TxtCache` | the TXT cache with shared lookups |
| `SecondFactor` | authenticator and recovery codes |
| `Session` | the session state machine |
| `Campaigns`, `CampaignDrive` | the campaign runner |
| `Text` | strings: trimming, splitting, numbers |

`dafny verify dfyconfig.toml` checks everything.

## Results

**ARC.** A message that opens with a field, has a From field and no chain can be sealed by
any 0 to 50 hops in a row, none refuses, and it then verifies as pass with exactly that
many sets (`EveryHopPasses`); the 51st is refused. The proof goes through the printed
fields being read back, the header parser, the collection of sets, the emptied signature
tag and both signed inputs. It assumes that a signature verifies under the signer's
published key, that base64 decodes what it encodes, and that the configured domain,
selector and field names can stand in a tag list. A hop whose authentication results carry
an `i=` tag of another number breaks the chain; `SealStep` proves this is the only way,
in both directions. A chain that fails for the hop that seals it fails ever after, for every
verifier and whatever keys each of them sees, if it can be collected or still has a first
signature (`FailureIsAbsorbing`). What is left are broken chains without one: such a chain
is a chain again after a seal exactly when it lacked nothing but the first signature, the
first seal and the results of the number the seal's results text reads as (`MendedIff`),
which for text that keeps its number means that it had only lost its first set
(`MendedFirst`). The streaming canonicalizer writes the batch form for every way of
splitting the body into reads.

**Where the code does less than its documentation says.**

- Spooled mail is verified through a reader that ends the head at the first blank line,
  while sealing ends it at the first CRLF blank line anywhere. `SplitsCanDiffer` gives a
  message they split differently, `SplitsAgreeIff` the exact condition for agreement, and
  `JourneyPassesReader` carries the guarantee above over to the reader.
- The firewall plan is meant to spare loopback. It drops 127.5.0.0/16 if that is blocked,
  because a network is only compared with 127.0.0.1 and ::1 (`LoopbackCanBeDropped`).
  `LoopbackSparedIff` gives the exact condition.
- The services and the firewall do not refuse the same addresses. For every set of blocks
  and exemptions, `ServicesOnlyIff` says which addresses only the services refuse: the rest
  of a blocked IPv6 address's /64, and what lies under a network that is in its last second
  or touches an exemption. `PlanOnlyIff` says which only the plan drops: loopback addresses
  under the networks above, and what lies under a network that is not the address's /24 or,
  for IPv6, /48, with no block under the address's own keys.
- A TXT answer lives 60 seconds from being stored, not from being given. `LateIsStale`
  shows a run where it is served 65 seconds after it came. `StaleIff` says of every store
  in every run whether such a serving can follow: exactly when time passed since the answer.
- Replacing a TOML value is meant to keep the line's comment. The editor's scan of the old
  line knows no escapes, so `x = "a\"b # c" # note` set to 1 becomes `x = 1 # c" # note`
  (`LostExample`, and `CommentCanBeLost` for the whole family). `CommentKeptIff` gives the
  exact condition on the old line. `SetReadsBackIff` says for which keys and sections the
  editor finds again what it wrote.
- A new TOML key is meant to go behind the last line of its section that is not blank. Where
  a header is repeated, as array tables are, it can go to the end of an earlier one and
  behind its blank lines (`RepeatedTable`); `InsertedAfterTextIff` is exact.
- A campaign paused while its goroutine is inside a send and then resumed can send a
  recipient twice, never send another, and report itself completed (`OverlapSendsTwice`).
  `RegisteringIsSafeIff` gives the exact condition, whatever the campaign's status, and
  `OnceInOrder` the guarantee.
- A campaign can be left Running with nobody sending it and every call returned
  (`RestartSticks`), and then stays so until it is paused or cancelled (`StuckLasts`).
  `StuckBeginsIff` names the two kinds of steps at which this begins, and `NeverStuck` the
  order of calls that rules it out.

## Model

| member | source | states |
|---|---|---|
| `ArcCanonical.CollapseWsp` | internal/arc/canonical.go:63-80 | The loop leaves one space for each run of blanks and everything else as it was. |
| `ArcCanonical.RelaxLines` | internal/arc/canonical.go:98-102 | Rewriting the lines in place gives each line's relaxed form. |
| `ArcCanonical.CanonicalizeBody` | internal/arc/canonical.go:87-120 | The body in lines of the chosen form, without the empty lines at its end, each line ended by CRLF; an empty body is one CRLF in the simple form and nothing in the relaxed one. |
| `ArcBodyReader.Writer.Take` | internal/arc/body_reader.go:26-56 | After any prefix of the body, what has been written is the canonical text of its finished lines with the empty ones at the end held back. |
| `ArcBodyReader.CanonicalStream` | internal/arc/body_reader.go:12-89 | For every body, both forms and every way of splitting it into reads, the bytes hashed are the batch canonical form of the whole body; a failed read gives none. |
| `ArcBodyReader.StreamEnd` | internal/arc/canonical.go:87-120 | The batch form of a body, told by its finished lines and its open one: what the stream has to match at the end. |
| `ArcMessage.ReadHeaderBlock` | internal/arc/message.go:79-118 | The loop with its builder gathers each field with its folded lines, names lower-cased, stray lines dropped. |
| `ArcMessage.PrependField` | internal/arc/message.go:53-118 | A field line put in front of a message that opens with a field adds exactly that field and changes neither the other fields nor the body. |
| `ArcTags.ReadTags` | internal/arc/message.go:163-177 | The map holds exactly the named parts of the list, the last mention of a name winning. |
| `ArcTags.EmptyTag` | internal/arc/message.go:213-249 | The search that hops over false matches empties the first tag that really starts there, and nothing else. |
| `ArcTags.ParsePrintTags` | internal/arc/message.go:163-177 | Every tag of a printed list is read back with its value. |
| `ArcTags.SignatureFieldEmptied` | internal/arc/message.go:213-235 | Emptying the signature tag of a finished signature field gives back the field as it was signed, though other values hold text like `b=`. |
| `ArcTags.SignatureFieldRead` | internal/arc/message.go:163-197 | Each tag of a signature field, and the signature, is read back from the finished field. |
| `ArcSelect.SelectHeaders` | internal/arc/message.go:127-156 | The loop with its count of uses takes, for the k-th mention of a name, the k-th such field from the bottom (RFC 6376 section 5.4.2). |
| `ArcSelect.SelectStable` | internal/arc/message.go:127-156 | Prepending any fields leaves the selection alone when no prepended name is listed more often than it already occurs. |
| `ArcSelect.NamesOfJoin` | internal/arc/message.go:127-134 | A printed list of names is read back as those names. |
| `ArcChain.ChainUnique` | internal/arc/verify.go:107-177 | A header block forms at most one chain. |
| `ArcChain.CollectedPermuted` | internal/arc/verify.go:107-177 | The chain found is the same for every order of the header block. |
| `ArcChain.ChainGrows` | internal/arc/verify.go:107-177 | The three fields of the next instance on top of a chain make it one set longer. |
| `ArcCollect.CollectSets` | internal/arc/verify.go:107-177 | The map filled, sorted and checked is a chain exactly when the ARC fields are one of each kind for every instance from 1 to at most 50 and nothing else; the sets come in order; anything else is the error. |
| `ArcVerify.SealInput` | internal/arc/crypto.go:46-64 | The loop builds the input of a seal: every set below it, then its own with the signature emptied. |
| `ArcVerify.SealDataStable` | internal/arc/crypto.go:46-64 | The input of seal k depends only on sets 1 to k. |
| `ArcVerify.SealDataOwn` | internal/arc/crypto.go:46-64 | A seal's input is the same before and after its signature is written into it. |
| `ArcVerify.SignedVerifies` | internal/arc/crypto.go:67-100 | What is signed and encoded verifies after decoding, folding and trimming included. |
| `ArcVerify.CheckMessage` | internal/arc/verify.go:58-104 | The verification with its early exits passes exactly when every set records what it must, the newest message signature verifies and every seal verifies; no sets is none; a broken chain fails. |
| `ArcSeal.SanitizeValue` | internal/arc/seal.go:166-178 | The text written into a header is never empty and holds no CR or LF. |
| `ArcSeal.PickNames` | internal/arc/seal.go:104-134 | The names signed are the configured ones that are present and not ARC fields, in order, and From is noticed exactly when it is among them. |
| `ArcSeal.MakeAms` | internal/arc/seal.go:103-147 | The message signature field over the selected headers and the body hash, refused without From or when signing fails. |
| `ArcSeal.Seal` | internal/arc/seal.go:39-93 | The sealed message: one more set in front, asserting what this hop found; refused at 50 sets. |
| `ArcFields.AarInstance` | internal/arc/seal.go:70 | The results field is read as its instance exactly when the results text has no `i=` tag of another number. |
| `ArcFields.ResultsCanRenumber` | internal/arc/seal.go:70 | Results text that is such a tag does give the field another number. |
| `ArcFields.AmsTagsFit` | internal/arc/seal.go:136-141 | The eight tags of a message signature can stand in its field exactly when the configured domain, selector and name list among them can. |
| `ArcSigned.SelectUnderSet` | internal/arc/seal.go:116-128 | Because no ARC field is signed, a hop's own set never disturbs the selection it signed. |
| `ArcSigned.AmsVerifies` | internal/arc/verify.go:180-228 | A message signature made over a message verifies on that message with the new set in front. |
| `ArcSigned.SealVerifies` | internal/arc/verify.go:231-241 | A seal made over a chain with its signature empty verifies once the signature is in place. |
| `ArcHops.SetPrepended` | internal/arc/seal.go:91-92 | The three fields in front of a message parse as three fields above the same headers and body. |
| `ArcHops.ChainAfter` | internal/arc/verify.go:107-177 | After a seal the chain is one set longer, or broken when the results text changed its number. |
| `ArcHops.SealStep` | internal/arc/seal.go:39-93 | One hop: sealing a good message succeeds, and the result passes exactly when the results text kept its number. |
| `ArcHops.JourneyPasses` | internal/arc/verify.go:58-104 | On any journey of at most 50 ready hops, after i hops the message passes with exactly i sets. |
| `ArcHops.EveryHopPasses` | internal/arc/seal.go:39-93 | Such a journey exists from every good message: no hop refuses. |
| `ArcHops.FullChainRefuses` | internal/arc/seal.go:50-53 | The 51st seal is refused. |
| `ArcHops.FailureIsAbsorbing` | internal/arc/seal.go:55-63 | Once a hop has sealed a chain that fails for it, collectable or broken beyond its first signature, the message and every message further hops make of it fails for every verifier, whatever keys each hop and the verifier see, with no assumption about signatures. |
| `ArcHops.MendedIff` | internal/arc/seal.go:39-93 | Sealing a broken chain leaves a chain exactly when the ARC fields below are those of a chain without its first signature, its first seal and its results of number m, where m is the number the new results field reads as. |
| `ArcHops.MendedBySet` | internal/arc/verify.go:107-177 | For any set of instance 1 on top of any message: that condition, and the chain it then is, with these three in place. |
| `ArcHops.MendedFirst` | internal/arc/verify.go:107-177 | When the results kept their number: a chain again exactly when the fields below are the sets 2 to n and nothing else, and the chain is then the new set and these. |
| `ArcHops.RenumberedMends` | internal/arc/seal.go:70 | Fields that results text of number 2 mends and no first set with its own number would. |
| `ArcHops.LackingIsBroken` | internal/arc/verify.go:146-175 | Such fields of at least two sets are a broken chain without a first signature: the case absorption leaves out. |
| `ArcReader.ParseReader` | internal/arc/message.go:29-50 | The loop over slices of the input splits at the first blank line of either form, whatever the slices; a head over 256 KiB is the error. |
| `ArcReader.SplitsAgreeIff` | internal/arc/message.go:29-75 | The reader and parseMessage give the same message exactly when no bare blank line comes before the first CRLF one and the head is at most 256 KiB. |
| `ArcReader.SplitsCanDiffer` | internal/arc/message.go:29-75 | A message with different bodies under the two. |
| `ArcReader.SealKeepsSplit` | internal/arc/seal.go:91-92 | Sealing does not change whether the two splits agree. |
| `ArcReader.JourneyPassesReader` | internal/arc/arc.go:140-152 | If the splits agree on the message as it left, then after i ready hops it passes through the reader as well, as long as its head is at most 256 KiB. |
| `Lifecycle.Server.EnterStart` | internal/api/server.go:621-633 | The gate lets a Start through only from New and refuses with the error that fits the state. |
| `Lifecycle.Server.Publish` | internal/api/server.go:899-922 | Publication sets server, listener and Running and closes `ready`, unless a Stop came first. |
| `Lifecycle.Server.FinishStop` | internal/api/server.go:945-954 | The result is stored, the state Stopped and `stopDone` closed. |
| `Lifecycle.Server.EnterStop` | internal/api/server.go:1001-1033 | What Stop does next and the state it leaves, for each of the five states. |
| `Lifecycle.Server.ClearServer` | internal/api/server.go:1056-1059 | Server and listener are forgotten; phase, channels and result stay. |
| `Lifecycle.StepKeeps` | internal/api/server.go:1001-1062 | Every step of every caller keeps the invariant: channels, owners, open listeners. |
| `Lifecycle.RunIsSafe` | internal/api/server.go:945-954 | In every state of every run: no close of a closed or missing channel and no nil server; Stopped exactly when `stopDone` is closed; once Stopped no listener is open. |
| `Lifecycle.OneStartPasses` | internal/api/server.go:621-633 | At most one Start of a run passes the gate. |
| `Lifecycle.ClosedOnce` | internal/api/server.go:921-954 | At most one step of a run closes `stopDone` and at most one closes `ready`. |
| `Lifecycle.StopsAgree` | internal/api/server.go:1001-1062 | All Stop calls of a run that have returned returned the same result, the stored one. |
| `Lifecycle.WaitIsOwed` | internal/api/server.go:1008-1030 | While a Stop waits, exactly one other call still owes finishStop. |
| `Lifecycle.OwnerCanMove` | internal/api/server.go:1001-1062 | That call is never blocked. |
| `Lifecycle.WaitEnds` | internal/api/server.go:1008-1062 | Four steps of that call, wherever they fall among the others' steps, end the wait. |
| `LoginThrottle.KeepRecent` | internal/api/login_throttle.go:70-76 | The filter that writes over the list it reads leaves exactly the failures inside the window, in order. |
| `LoginThrottle.Throttle.WaitLocked` | internal/api/login_throttle.go:69-87 | The wait for a key, and the map with that key's old failures gone. |
| `LoginThrottle.Throttle.RetryAfterLocked` | internal/api/login_throttle.go:52-65 | The greater wait of pair and address, and the map it leaves. |
| `LoginThrottle.Throttle.PruneLocked` | internal/api/login_throttle.go:117-123 | Exactly the keys whose newest failure left the window are dropped. |
| `LoginThrottle.Throttle.RecordFailure` | internal/api/login_throttle.go:89-102 | The failure is added under pair and address, after pruning a full map. |
| `LoginThrottle.Throttle.RecordSuccess` | internal/api/login_throttle.go:107-115 | The pair's failures are forgotten, the address's are not. |
| `LoginThrottle.WaitIsExact` | internal/api/login_throttle.go:69-87 | The wait lies between zero and the window, is positive at every moment before it has passed and zero from then on. |
| `LoginThrottle.RunIsSame` | internal/api/login_throttle.go:52-123 | After any run the stored lists answer every later question as the whole unfiltered record would. |
| `LoginThrottle.AnswersAreExact` | internal/api/login_throttle.go:52-65 | retryAfter answers as if nothing had ever been filtered or pruned, and its answer is exact while no failure is added. |
| `LoginThrottle.QuestionsChangeNothing` | internal/api/login_throttle.go:117-123 | Asking, and pruning at any moment, change no later answer. |
| `LoginThrottle.AddressIsSpaced` | internal/api/login_throttle.go:29-34 | If each failure is recorded when retryAfter gives zero, any 21 failures from one address span at least 15 minutes, whatever comes between. |
| `LoginThrottle.RecordIsSpaced` | internal/api/login_throttle.go:29-34 | Likewise any 6 failures of one pair of address and user since its last success. |
| `LoginThrottle.PairsFoldNames` | internal/api/login_throttle.go:46-48 | From one address, two usernames share a counter exactly when they differ only in case. |
| `Networks.MeetAtBase` | internal/abuse/failures.go:446-450 | Two networks share an address exactly when one holds the other's base. |
| `Networks.AllOrNothing` | internal/abuse/firewall.go:97-109 | A wider network holds all of a narrower one or none of it. |
| `Networks.CountedTogether` | internal/abuse/policy.go:284-308 | IPv4 addresses are counted one by one and IPv6 ones by /64, and each lies in its own subnet. |
| `Firewall.ListExempt` | internal/abuse/rules.go:272-285 | The configured networks and those of the live inbound allow rules for all protocols. |
| `Firewall.ExemptIff` | internal/abuse/rules.go:272-285 | A network is exempt exactly when it is configured so or a live inbound allow rule naming no protocol is about it. |
| `Firewall.CheckExempt` | internal/abuse/engine.go:118-137 | An address is exempt exactly when it is loopback or in an exempt network. |
| `Firewall.CheckOverlap` | internal/abuse/failures.go:433-452 | The query with its early exits, for addresses and for networks. |
| `Firewall.CheckCovered` | internal/abuse/firewall.go:93-113 | A target is covered exactly when a wider current network holds it. |
| `Firewall.Plan` | internal/abuse/firewall.go:87-120 | The entries are the current blocks with a second left that touch no exemption and are not covered, each once, with their seconds. |
| `Firewall.PlanIsDisjoint` | internal/abuse/firewall.go:74-76 | Different entries have no address in common. |
| `Firewall.TouchIsSharing` | internal/abuse/failures.go:445-450 | A target is refused for an exempt network exactly when they share an address. |
| `Firewall.PlanSparesExempt` | internal/abuse/firewall.go:74-76 | No entry drops an address of an exempt network. |
| `Firewall.LoopbackCanBeDropped` | internal/abuse/failures.go:441-443 | A concrete plan that drops loopback addresses. |
| `Firewall.LoopbackMissed` | internal/abuse/failures.go:441-443 | The loopback check misses exactly the networks inside 127.0.0.0/8 that leave 127.0.0.1 out. |
| `Firewall.LoopbackSparedIff` | internal/abuse/firewall.go:77-125 | The plan drops a loopback address exactly when such a network is blocked, not exempt, not covered and has a second left. |
| `Firewall.EnforcedIff` | internal/abuse/firewall.go:93-120 | A current block lies inside an entry exactly when the outermost network holding it can be dropped. |
| `Firewall.EveryBlockEnforced` | internal/abuse/firewall.go:77-125 | With no block near an exemption or in its last second, every current block lies inside an entry. |
| `Firewall.CheckBlocked` | internal/abuse/failures.go:104-121 | The services refuse an address exactly when it is not exempt and a current block stands under the key it is counted by or under its subnet. |
| `Firewall.ServicesOnlyIff` | internal/abuse/failures.go:104-121 | For any blocks, exemptions and moment: the services refuse an address the plan does not drop exactly when it is not exempt and it is of the rest of a blocked /64 that no block holds, or a block stands under its keys and the outermost block holding it is in its last second or touches an exemption. |
| `Firewall.PlanOnlyIff` | internal/abuse/firewall.go:77-125 | The plan drops an address the services let in exactly when the outermost block holding it can be dropped and is a stray network over a loopback address, or a network of another length than the address's subnet with no block under the address's keys. |
| `Firewall.ReachDiffersIff` | internal/abuse/policy.go:284-308 | One block: the addresses looked up under it but not dropped by it, and those dropped by it but never looked up under it. |
| `Firewall.ExemptNeighbour` | internal/abuse/failures.go:445-450 | With 10.0.0.0/24 blocked and 10.0.0.9 exempt the services refuse 10.0.0.5 and the plan is empty. |
| `Firewall.Block64IsOneEntry` | internal/abuse/policy.go:284-308 | With the first address of a /64 other than ::/64 blocked, the services refuse the second; the plan drops the first and not the second. |
| `Firewall.WideBlockIsPlanOnly` | internal/abuse/failures.go:115-119 | With 10.0.0.0/16 blocked the plan drops 10.0.0.1 and the services do not refuse it. |
| `Slots.ConnectionLimits` | internal/abuse/policy.go:106-120 | The last positive override for the protocol, or the general limit. |
| `Slots.GeneralLimit` | internal/abuse/policy.go:106-120 | Without a positive override for the protocol the general limit is in force. |
| `Slots.LastOverrideWins` | internal/abuse/policy.go:106-120 | Of several positive overrides for the protocol the last is in force. |
| `Slots.Engine.Acquire` | internal/abuse/engine.go:316-336 | Who gets a slot, who is refused and who passes uncounted, and the counts after it. |
| `Slots.Engine.Release` | internal/abuse/engine.go:337-346 | A release works once, and a key that reaches zero is removed. |
| `Slots.ReleaseOnce` | internal/abuse/engine.go:337-346 | A second release changes nothing and no release touches another slot. |
| `Slots.RunConserves` | internal/abuse/engine.go:316-347 | After any run each count is the number of unreleased slots, and a key is absent exactly when there are none. |
| `Slots.LimitHolds` | internal/abuse/engine.go:324-336 | Under one enforcing policy no protocol and network ever holds more slots than its limit. |
| `Slots.RefusedOnlyAtLimit` | internal/abuse/engine.go:324-336 | An enforcing policy refuses exactly at the limit, after any run. |
| `TomlLines.RemoveSection` | internal/config/toml_edit.go:119-148 | The loop with its held-back comments keeps what the line-by-line account keeps. |
| `TomlLines.ReadingKept` | internal/config/toml_edit.go:119-148 | Exactly the settings of the table and its descendants are gone; the others keep their lines and order. |
| `TomlLines.TableStays` | internal/config/toml_edit.go:119-148 | Every table that is not removed keeps all its lines, whole and in place. |
| `TomlLines.RemovedTwice` | internal/config/toml_edit.go:115-148 | Removing a table twice is removing it once. |
| `TomlEdit.TrailingComment` | internal/config/toml_edit.go:170-190 | The scan that tracks quotes. |
| `TomlEdit.FindLine` | internal/config/toml_edit.go:46-79 | The scan stops at the first assignment of the key inside the section, or knows the section's bounds. |
| `TomlEdit.ScanSpec` | internal/config/toml_edit.go:47-70 | Inserting at the end it found is inserting inside the section, repeated headers included. |
| `TomlEdit.SetTOMLValue` | internal/config/toml_edit.go:37-105 | Replace, insert or append, after the section.key tables have gone; an unsupported value is an error. |
| `TomlSettings.WrittenReads` | internal/config/toml_edit.go:152-165 | A written assignment reads back as its key exactly when the key is plain. |
| `TomlSettings.SetEdits` | internal/config/toml_edit.go:27-36 | The lookup finds the line written, and all other settings outside the replaced tables are the same lines in the same order. |
| `TomlSettings.OtherSettingsStay` | internal/config/toml_edit.go:27-36 | Any other section and key outside those tables finds the line it found before. |
| `TomlSettings.SetReadsBackIff` | internal/config/toml_edit.go:37-105 | The lookup finds the line written exactly when the key is plain and a header can name the section, for every document. |
| `TomlSettings.OneLineChanges` | internal/config/toml_edit.go:72-78 | When the key was set and no such table existed, exactly that line changes. |
| `TomlSettings.InsertedAfterTextIff` | internal/config/toml_edit.go:46-98 | For every document with the section: a new key goes to where the section last begins, behind its last line that is not blank and over blank lines only, exactly when no header has ended the section or the last one to do so comes after its last beginning. |
| `TomlSettings.RepeatedTable` | internal/config/toml_edit.go:93-98 | A document of repeated array tables where it goes behind a blank line of the first. |
| `TomlComments.CommentFoundIff` | internal/config/toml_edit.go:167-190 | The editor finds the comment TOML reads, with escapes in basic strings and none in literal ones, exactly when its own scan meets no bare `#` before that comment and is not inside a quote there. |
| `TomlComments.CommentKeptIff` | internal/config/toml_edit.go:72-78 | The line with its new value has the comment of the old line exactly when the scan passes over the old value so. |
| `TomlComments.NoEscapeKeeps` | internal/config/toml_edit.go:72-78 | It does for every line without a backslash behind the equals sign. |
| `TomlComments.CommentCanBeLost` | internal/config/toml_edit.go:167-190 | Every line whose value is a basic string with an escaped quote and then a `#`, with a comment behind it, does not keep its comment. |
| `TomlComments.LostText` | internal/config/toml_edit.go:72-78 | The text such a line becomes: the end of the old string stands before the comment. |
| `TomlComments.LostExample` | internal/config/toml_edit.go:72-78 | The line `x = "a\"b # c" # note` set to 1: the text it becomes, and the comment TOML reads before and after. |
| `TxtCache.CachingResolver.Cached` | internal/authresult/dnscache.go:107-119 | The live entry of a name, an expired one dropped. |
| `TxtCache.CachingResolver.Store` | internal/authresult/dnscache.go:121-146 | The entry with its lifetime, after making room; other errors are not stored. |
| `TxtCache.StoreIsBounded` | internal/authresult/dnscache.go:135-144 | Storing keeps the cache within 4096 entries. |
| `TxtCache.StoreKeepsLive` | internal/authresult/dnscache.go:135-145 | Storing an answer forgets another live one exactly when the cache is full of live ones, and the stored answer is found. |
| `TxtCache.CacheIsBounded` | internal/authresult/dnscache.go:135-144 | In every state of every run the cache holds at most 4096 entries. |
| `TxtCache.LookupsAreShared` | internal/authresult/dnscache.go:74-105 | In every state of every run no name is being looked up twice at once. |
| `TxtCache.ServedIsFresh` | internal/authresult/dnscache.go:107-146 | An answer served from the cache was given upstream for that name and stored less than 60 seconds earlier, 30 for "no such record"; no other error is served. |
| `TxtCache.SharedIsGiven` | internal/authresult/dnscache.go:82-92 | Whoever waited for a shared lookup got an answer given for its own name. |
| `TxtCache.LateIsStale` | internal/authresult/dnscache.go:82-88 | A run where an answer is served 65 seconds after it came. |
| `TxtCache.StaleIff` | internal/authresult/dnscache.go:134-145 | Of any store in any run: the run can go on, with no other store, to serve that answer its lifetime or more after it was given, exactly when it was stored later than it was given. |
| `TxtCache.PromptIsFresh` | internal/authresult/dnscache.go:22-35 | Where answers are stored as they come, a cached answer was given less than 60 or 30 seconds earlier. |
| `SecondFactor.MatchCode` | internal/adminmfa/adminmfa.go:468-479 | The step of the code among the current, previous and next, later than the last used. |
| `SecondFactor.Store.Update` | internal/adminmfa/adminmfa.go:182-228 | Nothing is written unless the operation succeeds and the write does; any error leaves the stored file as it was; empty users are dropped. |
| `SecondFactor.Store.BeginTotp` | internal/adminmfa/adminmfa.go:329-348 | A pending secret, refused while an authenticator is on. |
| `SecondFactor.Store.ConfirmTotp` | internal/adminmfa/adminmfa.go:352-381 | Enrolment with a matching code in time, with new recovery codes; the errors in their order. |
| `SecondFactor.Store.NewRecoveryCodes` | internal/adminmfa/adminmfa.go:395-412 | New codes for a user with an authenticator. |
| `SecondFactor.Store.VerifyCode` | internal/adminmfa/adminmfa.go:416-440 | The app's code, or else a recovery code, which is used up. |
| `SecondFactor.Store.DisableTotp` | internal/adminmfa/adminmfa.go:384-391 | The authenticator, its pending secret and its recovery codes are gone; passkeys stay. |
| `SecondFactor.Store.ResetUser` | internal/adminmfa/adminmfa.go:310-321 | The user is gone from the file; for an unknown user nothing is written. |
| `SecondFactor.StepsIncrease` | internal/adminmfa/adminmfa.go:466-479 | Between enrolments the steps of accepted codes strictly increase and lie within one step of the clock (RFC 6238 section 5.2). |
| `SecondFactor.RecoveryTakesOne` | internal/adminmfa/adminmfa.go:429-436 | A recovery sign-in removes exactly one hash, that of its code. |
| `SecondFactor.TenPerIssue` | internal/adminmfa/adminmfa.go:414-452 | At most ten recovery sign-ins succeed between one issue of codes and the next. |
| `SecondFactor.ShownCodeWorks` | internal/adminmfa/adminmfa.go:481-519 | A stored recovery code signs in when typed as it was shown. |
| `SecondFactor.IssuedCodesAreStored` | internal/adminmfa/adminmfa.go:442-452 | Each code issued is stored. |
| `SecondFactor.OffUntilEnrolled` | internal/adminmfa/adminmfa.go:383-391 | Once turned off or reset, every code of the user is refused until the next enrolment. |
| `SecondFactor.EnrolmentIsTimely` | internal/adminmfa/adminmfa.go:352-381 | In a run from an empty file an authenticator is turned on only with a secret begun for that user at most 15 minutes before. |
| `Session.Machine.TransitionTo` | internal/auth/session_state_machine.go:176-226 | The refusal in the order of the checks, or the new state. |
| `Session.Machine.SetUsername` | internal/auth/session_state_machine.go:271-282 | The name is set while authenticating or authenticated, otherwise refused. |
| `Session.Machine.ExtendExpiration` | internal/auth/session_state_machine.go:350-361 | A session that has not ended expires a duration from now; an ended one is refused. |
| `Session.Machine.RecordTransition` | internal/auth/session_state_machine.go:384-400 | The transition is added and the oldest dropped over twice the failure limit. |
| `Session.HistoryIsLast` | internal/auth/session_state_machine.go:384-400 | After any run the history is the last 2*maxFailures transitions of the whole trace. |
| `Session.HistoryIsLinked` | internal/auth/session_state_machine.go:384-400 | Each stored transition starts where the one before ended, and the last leads to the present state. |
| `Session.FailuresAreSpaced` | internal/auth/session_state_machine.go:418-448 | From the maxFailures-th failure of a run on, consecutive failures are at least the lockout apart. |
| `Session.AuthenticatedOnce` | internal/auth/session_state_machine.go:56-73 | Authenticated is entered at most once in a run. |
| `Session.EntryNeedsName` | internal/auth/session_state_machine.go:402-416 | Authenticated is entered only by asking for it with a username set. |
| `Session.TerminalIsFinal` | internal/auth/session_state_machine.go:56-73 | A terminal state is never left, and nothing more is recorded. |
| `Session.LockedNeedsFailures` | internal/auth/session_state_machine.go:402-448 | Locked is entered only after maxFailures failures. |
| `Campaigns.Runner.Register` | internal/campaign/runner.go:173-185 | A new token for a campaign without a registered run. |
| `Campaigns.Runner.Stop` | internal/campaign/runner.go:228-236 | Whatever run is registered for the campaign loses its registration, and its token is the one to cancel. |
| `Campaigns.Runner.Finish` | internal/campaign/runner.go:240-246 | A run's own registration is removed, and no other. |
| `Campaigns.SharedCampaign.BeginStart` | internal/campaign/runner.go:147-165 | A valid draft or paused campaign becomes Running; anything else is refused and unchanged. |
| `Campaigns.SharedCampaign.BeginPause` | internal/campaign/runner.go:193-202 | A running campaign becomes Paused; anything else is refused and unchanged. |
| `Campaigns.SharedCampaign.BeginCancel` | internal/campaign/runner.go:211-220 | A campaign that has not ended becomes Cancelled; an ended one is refused and unchanged. |
| `Campaigns.SharedCampaign.Choose` | internal/campaign/runner.go:282-306 | The next recipient, or the end of the run and completion when none is left. |
| `Campaigns.TokensAreUnique` | internal/campaign/runner.go:181-184 | No two runs share a token, so at most one is the registered run of its campaign. |
| `Campaigns.FinishIsOwn` | internal/campaign/runner.go:238-246 | In every run a returning goroutine removes its own registration and no other. |
| `Campaigns.OnlyForward` | internal/campaign/runner.go:279-281 | Between any two moments counters do not decrease, and Completed and Cancelled are not left. |
| `Campaigns.CompletedIsCounted` | internal/campaign/campaign.go:92-98 | A completed campaign has every recipient counted. |
| `Campaigns.OnceInOrder` | internal/campaign/runner.go:263-348 | Where each run is registered after the one before left its loop, recipients are attempted in list order, each once, and a completed campaign attempted exactly its list. |
| `Campaigns.OverlapSendsTwice` | internal/campaign/runner.go:193-206 | A run that sends the first of two recipients twice, never the second, and completes. |
| `Campaigns.RegisteringIsSafeIff` | internal/campaign/runner.go:147-190 | Registering a run of a campaign in any status can lead to a repeated recipient exactly when another goroutine of the campaign is still in its loop and the campaign is neither completed nor cancelled and has recipients left. |
| `CampaignDrive.StuckBeginsIff` | internal/campaign/runner.go:147-246 | In any state a step leaves a campaign Running with no goroutine in its loop and no Start about to register exactly when it refuses the last such Start or ends the last such goroutine without completing. |
| `CampaignDrive.StuckLasts` | internal/campaign/runner.go:147-190 | Such a campaign stays as it is, and cannot be started, until it is paused or cancelled. |
| `CampaignDrive.NeverStuck` | internal/campaign/runner.go:147-246 | If each Start comes after the earlier calls on its campaign returned and its last run gave up its registration, it never happens. |
| `CampaignDrive.RestartSticks` | internal/campaign/runner.go:171-180 | A run of Start, Pause and Start in which all three calls return and the campaign is left so. |

## Left out

- RSA, SHA-256, HMAC, base64 and base32: parameters with the laws stated in `ArcVerify.Lawful`; a zone is a function from names to keys, so the parsing of key records is not modelled.
- Text is ASCII: lower-casing and white space beyond ASCII, and invalid UTF-8, are not modelled.
- ArcReader.ParseReader: a read that fails other than at the end of the input, which is an error, is not modelled.
- HTTP handlers, routing, cookies and JSON of the API server; of Start only the gate, the listener and the publication are modelled.
- Lifecycle.Server.FinishStop: stopping the rate limiter beforehand is not modelled.
- A listener's Close is taken to close it whatever error it returns.
- A nil login throttle, which never throttles.
- Firewall.Plan: the order of the entries, the mode and the list of allowed networks are not modelled, and the clock is read once.
- Parsing and printing of addresses: targets are canonical values.
- AllowRate and its counters: its answer is a parameter of Acquire.
- Rendering of TOML values: the rendered text, without a line break, is a parameter, and the comment theorems take it to have its strings closed. Multi-line values are read line by line, as the editor does.
- Lookups other than TXT, which pass straight through the cache.
- WebAuthn ceremonies: passkeys are opaque and change freely. File locking is the atomicity of a call.
- Session identifiers, roles and the RBAC context of a session.
- Store, StopAll, SendTest and the sending rate of campaigns; 64-bit wrap-around of tokens.
- Valkey, the statistics, antispam and antivirus clients, and SPF, DKIM and DMARC evaluation.
