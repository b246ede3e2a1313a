# HAProxy Cluster Manager: a verified model

This project models the parts of HAProxy Cluster Manager (the `ham` package) that carry real
invariants, and proves what they keep. Each module names the source file it follows.

- **QR codes** (`ham/qr.py`): tables of GF(256), Reed-Solomon, byte mode, interleaving, the grid, the
  zig-zag, masks and penalty, as loops over arrays and grids; a reader written from the layout alone
  gets back every byte string the encoder accepts.
  `Bits`, `AlphaOrder`, `GaloisField`, `ReedSolomon`, `QrCodewords`, `QrInterleave`, `QrCodes`, `QrGrid`,
  `QrPlacement`, `QrCapacity`, `QrMask`, `QrPenalty`, `QrStandard`, `QrDecoder`, `QrEncoder`. The reader has
  tables of its own, drawn after the standard (`QrStandard`).
- **The replicated configuration** (`ham/config.py`, `ham/sync.py`): revisions, fingerprints, history,
  pushes that arrive late, twice or not at all, overwriting, catching up; and which objects a node keeps
  to itself. `Defaults`, `LocalObjects`, `NodeConfig`, `NodeOwned`, `History`, `Loading`, `Revision`,
  `Replication`.
- **The publish wizard** (`ham/dnsapi.py`, `ham/wizard.py`, `ham/webui.py`): the graph of servers,
  monitors, pools, conditions, rules, listeners and certificates that publishing and removing a service
  rewrite. `Names`, `Collections`, `ServiceGraph`, `RuleOrder`, `CertificateMatch`, `PublishSpec`,
  `PublishWellFormed`, `PublishServes`, `PublishAnswers`, `PublishCertificate`, `PublishFrame`,
  `PublishPlaces`, `PublishCheck`, `PublishEffects`, `PublishNames`, `PublishTwice`, `PublishReaches`,
  `PublishPitfalls`, `Wizard`, `Removal`.
- **haproxy.cfg as a compiler** (`ham/haproxy.py`, `ham/oauth.py`): directives as data and the order in
  which HAProxy runs them. `SsoToken`, `AllowList`, `PoolRules`, `ListenerRules`.
- **MQTT framing** (`ham/mqtt.py`), the **traffic window** (`ham/traffic.py`), **alerts**
  (`ham/notify.py`, `ham/traffic.py`) and the **restart budget** (`ham/watchdog.py`): `Mqtt`, `Traffic`,
  `Alerts`, `ServiceAlerts`, `Watchdog`.

Code that changes things in place is a class or a method over arrays, proved equal to a function of the
old state; the laws are lemmas about those functions.

## Where the code does not do what it is for

Each of these is proved for all inputs, with the condition under which the code does meet its purpose.

- Editing a service without saying anything of health checking keeps the service's monitor; but when that
  monitor is of the kind "none" and no other pool uses it, it is removed a few lines later while the pool
  still refers to it (`PublishWellFormed.PublishKeepsWellFormed`, `PublishWellFormed.SilentEditStrands`).
- `_place_rule` compares condition sets whatever the rule's operator. For a service of several names, whose
  rule asks for any of its conditions, the order is upside down: a rule for one of those names is placed
  behind it and never answers again (`RuleOrder.SwallowedByAlternatives`, `RuleOrder.AlternativesSwallow`).
- The wizard reuses a condition by kind and value without looking at its negation, and a rule by its
  conditions without looking at its test, so the rule of a published service can answer exactly the wrong
  requests (`PublishAnswers.PublishedRuleAnswers`, `PublishAnswers.UnlessAnswersRest`,
  `PublishPitfalls.UnlessRuleKept`).
- Several names together with a path would make the path alone enough (`PublishAnswers.NeedsAskedExactly`);
  `ham/recipes.py:98-102` refuses that combination before the wizard is called.
- Publishing http on a port whose listener redirects to https puts the rule there and leaves the redirect on,
  so the service answers nothing but redirects (`PublishReaches.RedirectingPortServesNothing`,
  `PublishPitfalls.HttpOnRedirect`).
- Publishing https with the redirect, which is the default, turns whatever plain listener has port 80: the
  http services on it are redirected from then on (`PublishFrame.PublishLeavesOthers`,
  `PublishPitfalls.HttpsTurnsOthers`).
- A target that names a server moves that server to the target's address, for every other pool that lists it
  too (`PublishFrame.OtherServersStay`, `PublishPitfalls.NamedServerMoves`).
- A service without a name of its own is called after the first label of its first host, and a pool of that
  name is taken whoever uses it: publishing a second service whose host begins alike puts its servers in
  place of the first one's (`PublishPlaces.PoolReachesSame`, `PublishPlaces.OthersLand`,
  `PublishPitfalls.NamesakeTakesPool`).
- A certificate that was never issued is given the new names of an edited service even when another service
  still needs the old one (`PublishCertificate.NamesKept`, `PublishPitfalls.RenamedAway`).
- An offered revision of 0 is never refused as stale (`Revision.ReceiveMonotone`), and overwriting reads its
  own revision before it asks the peers, so it can fall behind its own later saves
  (`Revision.NewestMonotone`).
- Overwriting forces its pushes past the check for stale revisions, so two nodes that overwrite the cluster and
  both commit before the other's push arrives swap contents and revisions, whatever they had heard. The cluster
  settles only if both chose one content and one revision (`Replication.CrossedOverwritesSwap`,
  `Replication.TwoOverwritesSettle`); one round of reconciling mends it unless the revisions are equal and the
  contents are not (`Replication.RoundAfterTwo`).
- A new node that saves on its own before it adopts anything takes revision 1, as every first save does, so
  equal revisions mean equal content exactly when all first saves have one content
  (`Replication.EqualRevisions`, `Replication.FreshSaveDiverges`).
- Nobody looks at the pools while the node is passive or HAProxy does not answer, and their timers run on: a
  pool that was well in between is reported as if it had been in trouble all the time
  (`ServiceAlerts.SteadyUnlessSkipped`, `ServiceAlerts.ReportedAcrossGap`).
- The wizard tells names apart as they are stored, and they are rendered cleaned: beside a pool "my app" it makes
  a "my_app" that renders alike (`PublishNames.PoolsApart`, `PublishPitfalls.PoolsRenderAlike`).
- A listener that has something attached and gives something away once more shows its list in another order
  (`LocalObjects.LaterMoveReorders`).
- An alert collected into a batch counts as delivered whether or not the batch is ever sent, so a problem
  nobody heard of waits for the repeat time (`Alerts.LostBatch`).
- Moving again after promoting gives back the moved state exactly when all that the node owned is named again
  and unflagged and the shared sections have its collections (`LocalObjects.MovedAgain`).
- `promote_local` and `merged` differ when a node alone has a collection, or when a listener lacks a list
  that nothing is attached to (`LocalObjects.PromotedIsMerged`).

## How things are modelled

- Bytes are numbers below 256 and exclusive-or is defined on numbers; text that is compared byte by byte
  (the single sign-on address) is one character a byte. Lower case is ASCII lower case.
- The replication lemmas hold for every way of loading that is a projection and takes a loaded view as it is
  sent (`Revision.Lawful`); the load of `Loading`, which fills in defaults and moves the node's own objects out,
  is one whatever the defaults are (`Revision.LoaderLawful`).
- A fingerprint is the shared view itself: equal fingerprints mean equal content.
- A new id comes from a generator `mint` that gives an id outside any set; the lemmas hold for every such
  generator. `base`, the name a service's objects are named after, is part of the request.
- HAProxy runs all request rules before any route, takes the first terminal rule and the first matching
  route, and its converters `word` and `regsub` behave as its configuration manual says. The lines that take
  the sign-in cookie apart are one directive, `ReadCookie`.
- A signature is a function from messages to non-empty hex strings; that nobody but the app signs is the
  assumption `SsoToken.Authentic`.
- A refused publication leaves a draft that the caller throws away (`ham/recipes.py:123-159`); the model says
  nothing about that draft.
- Clocks are parameters. Traffic samples, watchdog checks and alert rounds are given in the order in which
  they happen.

## Model

| member | source | states |
|---|---|---|
| AlphaOrder.Distinct | ham/qr.py:13-19 | the first 255 powers of alpha are all different, from the order of the shift register |
| GaloisField.AlphaSurjective | ham/qr.py:13-19 | every nonzero byte is a power of alpha |
| GaloisField.MulIsShift | ham/qr.py:27-31 | the table product is doubling, repeated as often as the logarithm says |
| GaloisField.MulAssoc | ham/qr.py:27-31 | the table product is associative |
| GaloisField.MulDistrib | ham/qr.py:27-31 | it distributes over exclusive-or |
| GaloisField.MulInverse | ham/qr.py:27-31 | every nonzero byte has a reciprocal, so the product is a field's |
| GaloisField.BuildTables | ham/qr.py:10-21 | the two table-filling loops produce the powers of alpha, twice over, and their logarithms |
| ReedSolomon.EvalProduct | ham/qr.py:24-32 | multiplying polynomials commutes with evaluating them |
| ReedSolomon.PolyMul | ham/qr.py:24-32 | the in-place loops compute that product |
| ReedSolomon.GeneratorRoots | ham/qr.py:38-40 | the generator vanishes at alpha^0 .. alpha^(degree-1) |
| ReedSolomon.RsRemainder | ham/qr.py:35-48 | data followed by the remainder vanishes at all those points |
| ReedSolomon.TooManyRoots | ham/qr.py:35-48 | a polynomial with as many of those roots as coefficients is zero |
| ReedSolomon.RemainderUnique | ham/qr.py:35-48 | only one tail of that length completes a block |
| ReedSolomon.MinimumDistance | ham/qr.py:35-48 | two different blocks of one length differ in more places than there are error-correction words |
| ReedSolomon.DamageUndone | ham/qr.py:35-48 | so a block damaged in at most half as many places has one nearest block |
| QrCodewords.ChooseVersion | ham/qr.py:69-75 | the smallest version that holds the bytes; none above 213 |
| QrCodewords.Put | ham/qr.py:82-84 | the loop appends the number's bits, most significant first |
| QrCodewords.BitsToCodewords | ham/qr.py:78-98 | header, bytes, terminator, then the two pad bytes by turns up to the capacity |
| QrCodewords.CodewordsParse | ham/qr.py:78-98 | a byte-mode reader finds the data in the codewords, whatever was padded behind |
| QrCodewords.CodewordsUnique | ham/qr.py:78-98 | there is only one such list of codewords |
| QrInterleave.Interleave | ham/qr.py:101-118 | data columns, then error-correction columns, every block a Reed-Solomon codeword |
| QrInterleave.InterleavedReads | ham/qr.py:101-118 | de-interleaving gives the words back, for every layout of blocks |
| QrInterleave.InterleavedUnique | ham/qr.py:101-118 | the stream is determined by the words and the layout |
| QrCodes.VersionBits | ham/qr.py:175-182 | the loop computes the version code |
| QrCodes.VersionCodeword | ham/qr.py:175-182 | it is a multiple of the BCH generator with the version in its top six bits |
| QrCodes.FormatBits | ham/qr.py:247-254 | the loop computes the format code |
| QrCodes.FormatCodeword | ham/qr.py:247-254 | unmasked, it is a multiple of its generator with level and mask in its top five bits |
| QrGrid.MakeGrid | ham/qr.py:121-172 | every fixed module and the reservation map, in closed form |
| QrCapacity.RoomForCodewords | ham/qr.py:53-66 | in every version the free modules hold all codeword bits, with fewer than eight to spare |
| QrCapacity.BlocksFillCapacity | ham/qr.py:53-64 | the blocks of a version add up to its capacity |
| QrPlacement.WalkCovers | ham/qr.py:185-201 | the zig-zag meets every module outside column 6 |
| QrPlacement.WalkInjective | ham/qr.py:185-201 | and meets none twice |
| QrPlacement.Place | ham/qr.py:185-201 | every free module gets the bit of its rank along the walk or zero; no reserved module is touched |
| QrPlacement.ReadBack | ham/qr.py:185-201 | walking the grid again yields the bits, then zeros |
| QrMask.MaskedCopy | ham/qr.py:291-296 | free modules are inverted where the mask says, the others copied |
| QrMask.WriteFormat | ham/qr.py:257-279 | both copies of the format bits, and nothing else |
| QrPenalty.Penalty | ham/qr.py:216-244 | the running scores add up to the four rules as defined on the matrix |
| QrPenalty.BalanceIs | ham/qr.py:242-243 | ten points for every whole five per cent between the share of dark modules and one half |
| QrStandard.MaskAsDrawn | ham/qr.py:204-213 | each of the eight masks inverts what its drawn pattern shows, row by row, with the period it has |
| QrStandard.FinderAsDrawn | ham/qr.py:127-135 | the finder with its separator is the drawn one, module by module |
| QrStandard.AlignmentAsDrawn | ham/qr.py:153-156 | so is the alignment pattern |
| QrStandard.BlocksAsTabulated | ham/qr.py:51-64 | blocks, error-correction words and capacity are those tabulated for level M in ISO/IEC 18004:2015, section 7.5.1 |
| QrStandard.FieldAsDefined | ham/qr.py:10-19 | the field is the one with alpha^8 = alpha^4 + alpha^3 + alpha^2 + 1 and alpha = 2 |
| QrStandard.CodesAsDefined | ham/qr.py:178-253 | the generators of the format and version codes and the format mask, term by term |
| QrStandard.PadsAsDefined | ham/qr.py:94-97 | behind the terminator the two pad words alternate, starting with 11101100 |
| QrDecoder.SymbolReads | ham/qr.py:282-301 | a reader that unmasks by the format bits, walks, de-interleaves and parses recovers the words |
| QrEncoder.ChooseMask | ham/qr.py:289-300 | the first of the masks that no other scores below |
| QrEncoder.AnnouncedMask | ham/qr.py:289-301 | the format bits of every symbol name level M and the mask used: a free module differs from its data bit exactly where the drawn pattern of that mask is dark |
| QrEncoder.SymbolDecodes | ham/qr.py:282-301 | every symbol of a byte string decodes to that byte string |
| QrEncoder.SymbolUnique | ham/qr.py:282-301 | the byte string determines the matrix, module by module |
| QrEncoder.Encode | ham/qr.py:282-301 | a matrix exactly for 213 bytes or fewer; it is the byte string's symbol and decodes to it |
| Defaults.MergeCompletes | ham/config.py:203-210 | nothing the defaults ask for is missing after a merge |
| Defaults.MergeFixed | ham/config.py:203-210 | a merge leaves a tree alone exactly when the tree is complete |
| Defaults.MergeIdempotent | ham/config.py:203-210 | merging the defaults twice is merging them once |
| Defaults.MergeAt | ham/config.py:203-210 | path by path: what is stored stays, objects stay objects, and the default stands exactly where nothing is stored on the way |
| Defaults.PathsLead | ham/config.py:203-210 | a path leads through objects, key by key, to what is stored there |
| NodeOwned.WebuiObjectIds | ham/config.py:593-612 | the loops collect the service's pools, their parts, the rules that route to them and what those test |
| NodeOwned.ServiceNameIs | ham/config.py:580-590 | the name of the service alone, or with a hyphen and more after it |
| NodeOwned.PoolIdsAre | ham/config.py:601-607 | a pool so named, or what such a pool is built from |
| NodeOwned.RuleIdsAre | ham/config.py:608-612 | a rule counts when its pool is among what was found before it, or for its name, and brings its conditions along |
| NodeOwned.OwnIdsAre | ham/config.py:229-235 | what loading moves: exactly the flagged objects, those of the service and the certificates named for it, with an id |
| NodeOwned.SettledUntouched | ham/config.py:216-239 | after the move no shared object or list carries an id that is this node's own |
| NodeOwned.NothingLeft | ham/config.py:216-239 | after the move the shared sections lead to nothing of this node's own but what pools and rules without an id lead to |
| NodeOwned.SettledTwice | ham/config.py:216-239 | the move that loading makes is a projection |
| Loading.LoadTwice | ham/config.py:242-272 | loading is a projection: the defaults add nothing the move takes, and the move takes nothing the defaults ask for |
| Loading.LoadChanges | ham/config.py:242-272 | a load changes the shared view exactly when there is something to fill in or to move |
| Loading.LoadKeepsSettings | ham/config.py:242-272 | path by path, of every section: a stored setting is loaded as stored, and a default only where nothing was |
| Loading.FillAt | ham/config.py:203-210 | a stored collection stays as it is; a missing one is the default |
| Loading.LoadKeepsObjects | ham/config.py:216-272 | object by object: what is not the node's own stays shared, the rest is among its own, and nothing else is shared |
| Loading.TouchedTwice | ham/config.py:242-574 | loading and saving without an edit changes nothing the second time |
| Loading.TouchCounts | ham/config.py:242-574 | the first time it moves the revision, by one, exactly when there is something to fill in or to move |
| History.SaveCounts | ham/config.py:545-555 | the revision moves by one exactly when the shared sections change |
| History.SaveKeepsHistory | ham/config.py:498-531 | after every save the newest snapshot is current and neighbours differ; a new one stands behind the others, of fifty the oldest goes for it |
| Revision.LoaderLawful | ham/config.py:242-272 | the load the program runs is a projection, and what it has loaded is taken by another node as it is sent |
| Revision.ReceivedIsSent | ham/sync.py:408-449 | taking a push leaves the receiver on the sender's content and revision |
| Revision.ReceiveMonotone | ham/sync.py:408-430 | a push moves the revision back exactly when it is forced, or says 0, with an older revision |
| Revision.AdoptedSettings | ham/sync.py:431-449 | path by path: an offered section is taken and completed; one that is missing, or of the last three not an object, stays as it was |
| Revision.AdoptedObjects | ham/sync.py:431-436 | a collection of an offered section is the one sent or the default; of any other it is as it was |
| Revision.NewestMonotone | ham/sync.py:204-244 | the new revision is one above every revision heard of, and below the node's own exactly when the node itself was saved further meanwhile |
| Revision.Node.Save | ham/config.py:534-574 | the saved state, revision and history, or a refusal to overwrite a file that was not read |
| Revision.Node.TakeSnapshot | ham/config.py:498-531 | a snapshot is added when the fingerprint is new, and the oldest go |
| Revision.Node.Receive | ham/sync.py:408-449 | the received sections, objects and revision, and what the load made this node's own; or a refusal that changes nothing |
| Revision.Node.MakeNewest | ham/sync.py:204-244 | the loaded content at one above every revision heard of, unless the file was not read |
| Revision.Reconcile | ham/sync.py:247-286 | the peers that are reachable, known, behind and may be pushed to, in order |
| Revision.CatchUp | ham/sync.py:289-349 | the first of the peers that report the highest revision above the node's own |
| Replication.SingleWriter | ham/sync.py:408-449 | one edited node: at every moment of every run each node that has saved holds what the writer held at that node's revision, or the one content of all first saves at revision 1 |
| Replication.SentArrives | ham/sync.py:408-449 | what a saved node sends is on its way to all, and a node not ahead that gets it holds what the sender held |
| Replication.EditHeld | ham/config.py:545-555 | an edit is what the writer holds from then on |
| Replication.EqualRevisions | ham/sync.py:408-449 | equal revisions mean equal content, across nodes and across time, exactly when all first saves have one content |
| Replication.AdoptingFirstAgrees | ham/sync.py:408-449 | they have when every other node adopts something before it saves |
| Replication.FreshSaveDiverges | ham/config.py:545-555 | a run in which a new node saves first and two contents stand at revision 1 |
| Replication.NeverBack | ham/sync.py:408-430 | no node's revision ever decreases |
| Replication.OverwriteSettles | ham/sync.py:204-244 | from any divergent state, overwriting and a push put every node on the overwriter's content at one revision above all earlier ones |
| Replication.ForcedOverwriteSettles | ham/sync.py:156-244 | a forced overwrite that reaches every node last puts them on its content and revision, whatever was heard before |
| Replication.CrossedOverwritesSwap | ham/sync.py:353-430 | of two overwriters that commit before the other's forced push arrives each ends on the other's content and revision, and every other node on those of the push that came last |
| Replication.TwoOverwritesSettle | ham/sync.py:353-430 | in whatever order the pushes arrive, they settle the cluster exactly when they chose one revision and one content |
| Replication.InTurnSettles | ham/sync.py:353-430 | when one's push arrives before the other commits, all nodes end on its content, and at one revision exactly when it overtakes the other's push nowhere or the revisions are equal |
| Replication.RoundSettles | ham/sync.py:247-286 | a round from a node at the highest revision settles the cluster exactly when all nodes at that revision hold its content |
| Replication.RoundAfterTwo | ham/sync.py:247-430 | after two overwriters that crossed it does so exactly when their revisions differ or their contents do not |
| Replication.SecondHears | ham/sync.py:204-244 | the revisions differ when one asked after the other had committed |
| Replication.UnforcedOverwritesSettle | ham/sync.py:204-244 | were the pushes not forced, two overwrites would settle exactly when the revisions differ or the contents do not |
| Replication.ReconcileSettles | ham/sync.py:247-286 | a round from a node at the highest revision lifts every lower node, and the next round pushes to nobody |
| LocalObjects.Rebuilds | ham/config.py:297-310 | putting a taken set of ids back at their recorded positions rebuilds the list |
| LocalObjects.ReinsertKeepsAll | ham/config.py:297-310 | for every list and every slot: nothing is lost, nothing made up, and what was listed keeps its order |
| LocalObjects.EachReinserted | ham/config.py:301-308 | each id goes to its position among all that is there by then; one without a usable position stands behind all of it |
| LocalObjects.AttachedAreShown | ham/config.py:278-405 | whatever was edited since the move, merging and promoting show of each listener what it lists and all that is attached to it |
| LocalObjects.ListenerRebuilds | ham/config.py:343-361 | a listener stripped and refilled from its own slot is as it was |
| LocalObjects.MovedThenMerged | ham/config.py:278-361 | after a move `merged` shows every listener's lists in the order it showed them before, where those that give something away have nothing attached yet, and no object is lost |
| LocalObjects.LaterMoveReorders | ham/config.py:343-361 | a listener with something attached that shows another order after giving something away |
| LocalObjects.PromotedIsMerged | ham/config.py:364-405 | promoting gives the sections that merging shows, with the exact exceptions |
| LocalObjects.MovedAgain | ham/config.py:313-405 | moving again after promoting restores the moved state, exactly when all that the node owned is named again, unflagged and of shared collections, and the listeners that gave something have both lists |
| NodeConfig.Store.MoveToLocal | ham/config.py:313-361 | the collections, lists and attachments after the move, and by how many objects the node's own have grown |
| NodeConfig.Store.PromoteLocal | ham/config.py:364-405 | the collections and lists after promoting, and the ids it reports |
| Names.UniqueIsFree | ham/wizard.py:53-60 | the name given is free, and is the wanted one whenever that is free |
| Names.UniqueName | ham/wizard.py:53-60 | the loop finds it and ends, because all names it passed are different and taken |
| Names.SecureFixed | ham/util.py:32-34 | cleaning a name twice is cleaning it once |
| RuleOrder.PlaceRule | ham/dnsapi.py:311-325 | the loop with its early return puts the rule before the first one whose condition set lies strictly within its own |
| RuleOrder.PlaceKeepsOthers | ham/dnsapi.py:311-325 | the others keep their order, the rule is listed, and placing it again changes nothing |
| RuleOrder.PlaceNoRepeat | ham/dnsapi.py:311-325 | no rule is listed twice |
| RuleOrder.PlaceOrdered | ham/dnsapi.py:311-325 | placing keeps the order that more conditions come first |
| RuleOrder.OrderedAt | ham/dnsapi.py:311-325 | in that order no rule stands anywhere before one whose condition set strictly contains its own |
| RuleOrder.NeverSwallowed | ham/dnsapi.py:311-325 | the first match is never strictly broader than another rule that matches, when both are if/and rules, whatever the others are |
| RuleOrder.SwallowedByAlternatives | ham/dnsapi.py:311-325 | a rule over more conditions takes all requests of a rule over some of them exactly when it asks for any of them |
| RuleOrder.AlternativesSwallow | ham/dnsapi.py:311-325 | placed in a listener it then keeps that rule from ever answering |
| CertificateMatch.LowerIs | ham/wizard.py:87-106 | names are compared with each capital as its small letter and nothing else changed |
| CertificateMatch.CoversIsByLabels | ham/wizard.py:87-106 | a wildcard stands for exactly the leftmost label (RFC 6125, section 6.4.3) |
| CertificateMatch.BestForFound | ham/wizard.py:109-122 | a certificate is found exactly when one names the host, exactly or by wildcard |
| CertificateMatch.BestForCovers | ham/wizard.py:109-122 | what is found covers the host |
| CertificateMatch.CertForHost | ham/wizard.py:109-122 | an exact name wins over a wildcard, and the first of each kind is taken |
| PublishWellFormed.ClaimAllOk | ham/dnsapi.py:388-435 | claiming servers keeps ids and names unique and lists no server twice |
| PublishWellFormed.MonitorStepOk | ham/dnsapi.py:513-567 | the chosen monitor exists afterwards, except in the stranding case |
| PublishWellFormed.DropOrphansOk | ham/dnsapi.py:295-308 | no referenced server is dropped |
| PublishWellFormed.PublishKeepsWellFormed | ham/dnsapi.py:388-829 | every accepted publication keeps all references resolvable and all ids and names unique, exactly when it does not strand a monitor |
| PublishWellFormed.SilentEditStrands | ham/dnsapi.py:515-565 | a well-formed configuration and an accepted edit that leaves a pool referring to a removed monitor |
| PublishServes.BackendServes | ham/dnsapi.py:388-594 | the pool's servers are at the targets' addresses, one by one, and its options are set |
| PublishServes.DroppedOrphans | ham/dnsapi.py:295-308 | of the candidates exactly those servers go that the wizard made and nothing uses |
| PublishCheck.PublishedCheck | ham/dnsapi.py:521-567 | after an accepted publication that names a check the pool's monitor is that check, field by field with each field's default |
| PublishCheck.SilentCheckStays | ham/dnsapi.py:515-567 | an edit that says nothing of checks keeps the monitor; it is as it was exactly when it is of some kind or shared |
| PublishCheck.NoCheckAsked | ham/dnsapi.py:521-567 | without a check asked for or to keep the pool has none, and one only this pool had is gone |
| PublishCheck.CheckReused | ham/dnsapi.py:539-555 | where the pool has no check of its own and one like that is there, none is made |
| PublishCheck.OtherChecksStay | ham/dnsapi.py:533-567 | the check of every pool not taken is as it was, also one shared with the edited pool |
| PublishEffects.EditedRuleKept | ham/dnsapi.py:664-674 | editing a service keeps its rule, and its pool when it has one |
| PublishEffects.EditedListenerKept | ham/dnsapi.py:569-584 | editing a tcp service keeps the pool its listener sends to |
| PublishEffects.ServerForTarget | ham/dnsapi.py:392-418 | a target takes an unclaimed server of its name or address, or a new one with the stated name |
| PublishEffects.PublishedServers | ham/dnsapi.py:392-435 | each server of the published pool has the check port and PROXY setting asked for; one that was there keeps everything else |
| PublishEffects.UnlistedServers | ham/dnsapi.py:295-308 | a server no pool lists afterwards is as it was, or gone when the wizard made it and the pool taken had listed it |
| PublishEffects.PublishedPool | ham/dnsapi.py:569-594 | what the pool is called, new, found or renamed, and that its options are those asked for over those it had |
| PublishEffects.ReusedIsRoute | ham/dnsapi.py:667-669 | a rule not edited by its id is reused only when it is a route over exactly the needed conditions |
| PublishEffects.ReusedInAnyOrder | ham/dnsapi.py:667-669 | a route over the needed conditions is reused in whatever order it lists them |
| PublishEffects.NeedsNamed | ham/dnsapi.py:637-658 | what new conditions are called |
| PublishEffects.ConditionsReused | ham/dnsapi.py:631-651 | where there is a condition for each name, in any case, and for the path, none is made |
| PublishEffects.ConditionsLeft | ham/dnsapi.py:670-684 | of the conditions there were exactly those go that the rule taken tested and no rule tests any more |
| PublishEffects.OldHostsAre | ham/dnsapi.py:375-377 | the names an edited service had are those its rule's host conditions ask for |
| PublishEffects.NoCertificateWanted | ham/dnsapi.py:695-697 | only https with the wish for a certificate touches certificates |
| PublishEffects.CertificateAsAsked | ham/dnsapi.py:730-757 | a new certificate has the names, account and challenge of the request; one made over gets account and challenge where it had none |
| PublishEffects.FirstPlainTurned | ham/dnsapi.py:812-819 | the first listener on port 80 without TLS is the one turned into a redirect |
| PublishEffects.NewPortListener | ham/dnsapi.py:782-797 | a port nobody binds gets a listener named after scheme and port that carries the rule and the certificate alone |
| PublishEffects.ListenersOnlyGain | ham/dnsapi.py:794-809 | no listener loses the rule unless the service is edited, and none loses or gains a certificate but the service's |
| PublishEffects.TcpListenerAsAsked | ham/dnsapi.py:599-627 | the tcp listener binds the host and port asked for and sends everything to the pool |
| PublishEffects.TcpRefusal | ham/dnsapi.py:600-615 | exactly when a tcp service is refused |
| PublishEffects.WebRefused | ham/dnsapi.py:776-785 | a web service is refused exactly when one of its ports is bound and no listener on it could carry the service |
| PublishAnswers.NeedsAskedExactly | ham/dnsapi.py:629-693 | the rule's conditions mean what the URLs ask for exactly when there is one name or no path |
| PublishAnswers.RuleAnswersExactly | ham/dnsapi.py:629-693 | the rule answers exactly what the URLs ask for when and only when there is one name or no path and neither an `unless` test nor a negated condition, or both over a single condition |
| PublishAnswers.PublishedRuleAnswers | ham/dnsapi.py:629-693 | which is told before publishing by the conditions and the rule it would reuse, as are the rule's test and kind |
| PublishAnswers.UnlessAnswersRest | ham/dnsapi.py:664-674 | a reused `unless` rule over plain conditions answers exactly what the URLs do not ask for |
| PublishPitfalls.UnlessRuleKept | ham/dnsapi.py:664-674 | a well-formed configuration and an accepted publication where that happens |
| PublishServes.PublishServesWeb | ham/dnsapi.py:629-829 | pool, rule and certificate are in place, every port carries the rule, an edited service is carried nowhere else, and http is redirected |
| PublishServes.PublishServesTcp | ham/dnsapi.py:596-627 | the port goes straight to the pool that holds the targets |
| PublishCertificate.CertificateCovers | ham/dnsapi.py:695-766 | unless chosen by id, the certificate names every host of the service |
| PublishCertificate.IssuedKeepsNames | ham/dnsapi.py:704-755 | an issued certificate keeps every name it was issued for |
| PublishCertificate.NamesKept | ham/dnsapi.py:695-755 | any certificate loses a name exactly when it was never issued, is for a former host alone, is the one given the service's names, and the name is none of them |
| PublishPitfalls.RenamedAway | ham/dnsapi.py:733-750 | an accepted edit that takes the certificate of a host another service still answers for |
| PublishFrame.PublishLeavesObjects | ham/dnsapi.py:388-829 | pools that are not taken and other rules stay, and listeners but for the service's rule, certificates and, on the first plain one on port 80, the redirect |
| PublishFrame.PoolTaken | ham/dnsapi.py:569-594 | the pool taken, told before publishing: the edited service's, else the one of the name, whoever uses it |
| PublishFrame.PublishLeavesOthers | ham/dnsapi.py:388-829 | by its rendered lines each listener sends a request the service's rule does not match to the pool it was sent to without that rule, except that a plain listener turned to https redirects what it answered |
| PublishPlaces.PoolReachesSame | ham/dnsapi.py:388-594 | any pool sends to the same addresses as before exactly when it is taken and has the targets already, or is not taken and no server of it is repointed |
| PublishPlaces.OthersLand | ham/dnsapi.py:388-829 | a request the service's rule does not match ends at the addresses, or with the answer, it had without that rule exactly when its listener is not turned and the pool that answered stays put |
| PublishPlaces.TcpOthersLand | ham/dnsapi.py:388-627 | after publishing a tcp service a request on another listener ends where it did exactly when the pool that answered stays put |
| PublishPitfalls.NamesakeTakesPool | ham/dnsapi.py:379-386 | two services whose hosts begin alike: publishing the second sends the first one's requests to its server |
| PublishPitfalls.HttpsTurnsOthers | ham/dnsapi.py:811-817 | a service reached over http that is redirected once another is published |
| PublishFrame.OtherServersStay | ham/dnsapi.py:388-435 | a server of a pool that is not taken stays, and keeps its address exactly when no target repoints it by name |
| PublishFrame.UnnamedStays | ham/dnsapi.py:399-407 | none does when no target has its name |
| PublishPitfalls.NamedServerMoves | ham/dnsapi.py:399-407 | a publication that moves a server another service's pool lists |
| PublishFrame.PublishKeepsOrder | ham/dnsapi.py:776-809 | every listener keeps the order of its rules |
| PublishNames.PoolsApart | ham/dnsapi.py:569-594 | pools are rendered under different names exactly when no other pool's cleaned name is the one the published pool gets |
| PublishNames.PublishAddsClean | ham/dnsapi.py:388-829 | every name that publishing gives, in every collection, is rendered as it is stored |
| PublishNames.PublishKeepsClean | ham/dnsapi.py:388-829 | so where all names are clean no two objects of a kind are rendered under one name |
| PublishPitfalls.PoolsRenderAlike | ham/dnsapi.py:569-594 | an accepted publication after which two pools are rendered under one name |
| PublishTwice.ServersAgain | ham/dnsapi.py:388-435 | claiming again finds the same servers and drops none |
| PublishCertificate.CertificateAgain | ham/dnsapi.py:695-766 | the certificate found again is the one left behind |
| PublishTwice.PublishedTwice | ham/dnsapi.py:388-829 | the same request twice, without a service id, a forced certificate or server names, changes nothing the second time |
| PublishReaches.PublishedReaches | ham/dnsapi.py:629-829 | a request the URLs ask for, on a listener with the rule and no other that matches, is sent to the pool holding the targets exactly when no redirect, challenge or sign-in host preempts it and the rule is a route |
| PublishReaches.PublishedReachesAmong | ham/dnsapi.py:629-829 | whatever else is listed, the request is sent to that pool exactly when nothing preempts it, no rule that ends requests matches and the first route that does leads there |
| PublishReaches.PublishedReachesFirst | ham/dnsapi.py:311-829 | into rules in order: where broader routes match too, the service's route still sends the request to the pool holding the targets, exactly when nothing preempts it |
| PublishReaches.RedirectTold | ham/dnsapi.py:776-829 | whether that listener redirects is told before publishing |
| PublishReaches.RedirectingPortServesNothing | ham/dnsapi.py:776-800 | on a plain listener that redirects already the published rule answers nothing |
| PublishPitfalls.HttpOnRedirect | ham/dnsapi.py:776-800 | a well-formed configuration and an accepted publication where that happens |
| Wizard.HostsAndPorts | ham/dnsapi.py:351-358 | hosts once each whatever their case, ports once each |
| Wizard.Config.ClaimServer | ham/dnsapi.py:392-435 | one target: repoint by name, reuse by address, or create |
| Wizard.Config.SettleMonitor | ham/dnsapi.py:513-567 | keep, change, share, create or remove the monitor |
| Wizard.Config.DropOrphanServers | ham/dnsapi.py:295-308 | wizard-made servers no pool references go |
| Wizard.Config.PutPool | ham/dnsapi.py:569-594 | the pool by id or name, renamed, updated or created |
| Wizard.Config.ServeTcp | ham/dnsapi.py:599-627 | the tcp listener, or a refusal that changes nothing |
| Wizard.Config.PutRule | ham/dnsapi.py:660-693 | the rule, and the conditions its old form left unused |
| Wizard.Config.PutCertificate | ham/dnsapi.py:695-766 | chosen, extended, repurposed or new |
| Wizard.Config.ServePort | ham/dnsapi.py:776-800 | one port's listener, found or created, with rule and certificate |
| Wizard.Config.Publish | ham/dnsapi.py:328-829 | the whole configuration afterwards, and that it is well formed exactly when no monitor is stranded |
| Removal.RemovedKeepsWellFormed | ham/webui.py:538-574 | removing a service keeps the configuration well formed |
| Removal.RemovedSpares | ham/webui.py:538-574 | what any remaining rule, listener or pool uses is as it was |
| Removal.RemovedIsGone | ham/webui.py:538-574 | the rule leaves every listener, and exactly the conditions and the pool that only it used go |
| Removal.RemovedExactly | ham/webui.py:538-574 | object by object what goes: the rule, conditions no other rule tests, its pool when nothing else leads there, servers no other pool lists; all else is as it was |
| Removal.RemovedTcpExactly | ham/webui.py:621-637 | the same for a tcp listener, whose servers go only when the wizard made them |
| Removal.PublishThenRemove | ham/webui.py:538-574 | removing a service that reused nothing gives back servers, pools, conditions and rules |
| Removal.RemoveService | ham/webui.py:538-574 | the configuration after removing a rule's service |
| Removal.RemoveTcpService | ham/webui.py:621-639 | the configuration after removing a tcp listener's service |
| SsoToken.HexEndsWith | ham/haproxy.py:405-444 | a hex suffix matches exactly when the plain suffix does |
| SsoToken.Base64RoundTrip | ham/oauth.py:114-124 | the address survives its base64 form, which has no dot |
| SsoToken.IssuedAccepted | ham/oauth.py:114-124 | an issued cookie is valid, fresh for exactly the hours asked (twelve when none, one when negative), and read back as its address |
| SsoToken.DotsSkipped | ham/haproxy.py:424-435 | dots in front of a word of the cookie are skipped |
| SsoToken.WordsNotEmpty | ham/haproxy.py:424-435 | no word is empty and none is skipped but the empty ones |
| SsoToken.AcceptedIsSigned | ham/haproxy.py:424-435 | every part HAProxy reads of a valid cookie was signed |
| AllowList.ParseAllow | ham/oauth.py:63-80 | entries and bad lines, with every line accounted for |
| AllowList.LabelIs | ham/oauth.py:42-43 | a label is one to sixty-four letters, digits and hyphens with no hyphen at either end |
| AllowList.EmailIs | ham/oauth.py:44 | an address is a local part, an at sign, and two parts of a domain with a dot between, none of them empty |
| AllowList.AcceptableIs | ham/oauth.py:63-80 | a line may say everyone, a domain of two or more labels, or an address |
| AllowList.HexMatchesAdmitted | ham/haproxy.py:436-452 | matching in hex admits exactly the addresses on the list |
| AllowList.OneKind | ham/oauth.py:63-80 | an entry that is neither everyone nor a domain admits that one address |
| AllowList.DomainIsExact | ham/haproxy.py:436-452 | an @domain entry admits that domain only |
| PoolRules.Render | ham/haproxy.py:358-493 | the pool's lines, appended in the source's order |
| PoolRules.RulesDecide | ham/haproxy.py:358-493 | for every pool and request the lines decide what the settings say, in the order maintenance, source, rate, single sign-on, password |
| PoolRules.ForwardedExactly | ham/haproxy.py:358-493 | a request is forwarded exactly when every gate lets it through |
| PoolRules.RateRefuses | ham/haproxy.py:100-114 | a request is refused for its rate exactly when the client made more than the limit, and never with a blank, malformed or not positive limit or a malformed or not positive window |
| PoolRules.OnlyTracked | ham/haproxy.py:384-398 | the limit refuses nobody unless the line before it tracks the client |
| PoolRules.GroupsLetIn | ham/haproxy.py:467-468 | the groups let in are those chosen that exist under a name |
| PoolRules.PasswordAsked | ham/haproxy.py:466-493 | who gets through the password, who is asked for one, and when nobody could |
| PoolRules.IdentityIsSigned | ham/haproxy.py:399-463 | an identity header that is sent carries an unexpired, admitted, signed address |
| PoolRules.FailsClosed | ham/haproxy.py:373-493 | a sign-in or list nobody can satisfy refuses everyone but exempt sources |
| ListenerRules.Render | ham/haproxy.py:236-298 | request rules and routes collected side by side decide as the lines in written order |
| ListenerRules.GroupingPreserves | ham/haproxy.py:282-294 | grouping changes nothing for any request |
| ListenerRules.RoutesAreFirstMatch | ham/haproxy.py:54-70 | the route taken is the pool of the first route that matches, whatever edits and refusals stand between |
| ListenerRules.ListenerDecides | ham/haproxy.py:236-298 | for every listener, tcp or http: redirect, sign-in host, refusing rules, challenge, first matching route, default pool, in that order |
| ListenerRules.DanglingIgnored | ham/haproxy.py:54-70 | with no condition on the rules: a condition that does not exist is not asked for and a route to a pool that does not exist is none |
| ListenerRules.OthersAnswered | ham/haproxy.py:236-298 | changing a rule that does not match changes no answer; turning a listener to https makes its answers redirects |
| Mqtt.Varint | ham/mqtt.py:21-28 | the loop writes the length seven bits a byte |
| Mqtt.LengthRoundTrip | ham/mqtt.py:21-28 | every length is read back, wherever it stands |
| Mqtt.PublishRoundTrip | ham/mqtt.py:162-166 | what is published parses back to its topic and message |
| Mqtt.PublishPacket | ham/mqtt.py:101-107 | whatever follows it, the packet is one frame that holds topic and message |
| Mqtt.ConnectRoundTrip | ham/mqtt.py:62-75 | a broker recovers client id, will, credentials and keep-alive (MQTT 3.1.1, section 3.1) |
| Mqtt.ConnectPacket | ham/mqtt.py:62-77 | whatever follows it, the packet is one frame from which a broker reads that |
| Mqtt.ParseUnfinished | ham/mqtt.py:142-159 | part of a frame is not taken for a frame |
| Mqtt.DrainEncoded | ham/mqtt.py:142-159 | frames come out as they went in and an unfinished tail stays |
| Mqtt.FeedIsDrain | ham/mqtt.py:117-159 | however the bytes are cut, the frames are those of the whole |
| Mqtt.AnyChunking | ham/mqtt.py:117-159 | every list of frames, every cut and every unfinished next frame |
| Mqtt.Publisher.ParseBuffered | ham/mqtt.py:142-159 | one frame off the buffer, or the buffer unchanged |
| Mqtt.Publisher.ReadFrame | ham/mqtt.py:117-140 | the first frame of buffer and chunks, and what is left |
| Mqtt.Publisher.NextPacketId | ham/mqtt.py:109-112 | ids run from 1 to 65535 and start over |
| Traffic.Store.Record | ham/traffic.py:88-169 | the window stays the tail of the endless log, at most KEEP_SAMPLES long |
| Traffic.CounterLogged | ham/traffic.py:73-140 | a sample is the rise since the last reading less the service's own requests; nothing when there is no earlier reading, it fell or it does not parse |
| Traffic.RiseAddsUp | ham/traffic.py:73-140 | while a counter only rises, samples and own requests add up to the rise from the first reading to the last |
| Traffic.IdleIsSilent | ham/traffic.py:158-169 | a pool is dropped exactly when it did nothing in the window |
| Traffic.Store.Read | ham/traffic.py:88-169 | requests and errors read as the endless log has them, an absent pool as zero |
| Traffic.Store.History | ham/traffic.py:337-353 | the last stretch, every row still that of the log |
| Traffic.SinceIsTail | ham/traffic.py:337-353 | counting the recent samples keeps exactly the recent ones |
| Alerts.AttemptsInARow | ham/notify.py:248-278 | an unchanged state is reported again only while broken and after the repeat time; a report is forced exactly when it closes a delivered problem |
| Alerts.FirstAttempt | ham/notify.py:248-278 | a first report is never forced |
| Alerts.CombinedPasses | ham/notify.py:124-194 | alerts that would each be sent are sent when combined |
| Alerts.KeptBack | ham/notify.py:124-137 | an alert is kept back exactly when notifications are off, nobody would receive it, its category is off, or it is below the floor and not forced |
| Alerts.FlushOf | ham/notify.py:152-171 | every collected alert that has left did so at one position of one flush |
| Alerts.Notifier.Transition | ham/notify.py:248-278 | an attempt is made exactly when the report is news; delivered means sent to somebody or collected into an open batch |
| Alerts.LostBatch | ham/notify.py:152-278 | a collected problem whose batch nobody took is not reported again before the repeat time, and its recovery is forced |
| Alerts.Notifier.Notify | ham/notify.py:197-234 | refused, collected while a batch is open, or sent |
| Alerts.Notifier.BatchEnd | ham/notify.py:156-171 | everything held leaves at once, unless the hold is still open |
| ServiceAlerts.SinceIsUnbroken | ham/traffic.py:304-312 | a timer stands for trouble in every round since it was started |
| ServiceAlerts.ReportedInTime | ham/traffic.py:297-331 | trouble that has lasted for the grace period is reported, and so is a watched pool that is well |
| ServiceAlerts.TroubleIs | ham/traffic.py:262-293 | in trouble is an observed pool with no server up, or with some down where every server matters |
| ServiceAlerts.ReportsExactly | ham/traffic.py:262-331 | a round reports of each observed pool what it is, trouble only once it has lasted for the grace, and nothing else |
| ServiceAlerts.ServiceWatch.CheckServices | ham/traffic.py:252-334 | one round: the timers, and alerts attempted for this round's reports and nothing else |
| ServiceAlerts.ServiceWatch.AlertsAreEarned | ham/traffic.py:252-334 | over every sequence of checks each alert of trouble the notifier attempted came in a check that ended an unbroken streak of at least the grace |
| ServiceAlerts.ServiceWatch.Poll | ham/traffic.py:172-197 | a poll is a check, or is skipped and leaves timers and alerts alone |
| ServiceAlerts.ServiceWatch.AlertsAtPolls | ham/traffic.py:172-334 | over every sequence of polls each alert of trouble came at a poll whose timer had run for the grace |
| ServiceAlerts.SteadyUnlessSkipped | ham/traffic.py:172-334 | a running timer stands for trouble at every poll since, whatever happened unseen, exactly when none was skipped since it was started |
| ServiceAlerts.ReportedAcrossGap | ham/traffic.py:172-334 | a pool that was well while the node was passive is reported at once, as if it had been down all the time |
| Watchdog.CountIs | ham/watchdog.py:166-170 | the restarts counted are the places of the log with a time in the interval |
| Watchdog.AnyInterval | ham/watchdog.py:166-170 | spaced restarts put at most `limit` of them into any interval shorter than the window |
| Watchdog.Supervisor.RestartAllowed | ham/watchdog.py:166-170 | the pruned history decides as the whole history would |
| Watchdog.Supervisor.Round | ham/watchdog.py:203-278 | a restart happens exactly when the unit is down, wanted, usable and within budget; a healthy verdict forgets |
| Watchdog.Supervisor.WithinBudget | ham/watchdog.py:226-242 | between two healthy verdicts any interval shorter than the window holds at most `limit` restarts |

## Left out

- QrPlacement.Place: asks for an odd size of at least 7 with the column of vertical timing reserved, as every symbol has; sizes of real symbols start at 21.
- QrEncoder.Encode: takes bytes, so UTF-8 encoding and decoding of the text are not modelled.
- QrDecoder.SymbolReads: the reader relies on an undamaged symbol; the error-correction words are proved right but not used to repair anything.
- Defaults.MergeIdempotent: merging is on values; that the source fills the caller's dictionaries in place is not captured.
- Revision.Node.MakeNewest: the peers' answers are a parameter; that they are asked outside the lock is the gap between the revision seen and the one found.
- Replication.SingleWriter: senders have been saved at least once and nothing is forced; the rebuild of the web-UI service on receiving leaves the shared sections alone.
- Revision.Node.Receive: the peer list, the certificate files and the rebuild of the web-UI service are not modelled; they are this node's own.
- Revision.Adopted: a section that is offered without being an object has no collections.
- ServiceAlerts.ServiceWatch.CheckServices: one report a pool and round, as HAProxy refuses two proxies of one name and kind.
- LocalObjects.MovedAgain: from a configuration with nothing attached yet, as promoting leaves it before every rebuild; listeners have names of their own.
- Loading.LoadTwice: lists of objects are one leaf to the defaults; the settings around them are trees.
- NodeOwned.WebuiObjectIds: what a pool or a rule refers to is given as functions of the object.
- Removal.PublishThenRemove: listeners, certificates and the monitor stay, as in the source.
- Traffic.Store.Record: one report a pool and sample, as HAProxy refuses two proxies of one name and kind.
- PoolRules.Render: the two cookie-stripping header rewrites, timeouts, stick tables, persistence and server lines are not modelled, and the count within the rate window is part of the request.
- ListenerRules.Render: a rule's own action is a terminal or an edit without content; names of ACLs are their conditions.
- Wizard.Config.Publish: the list of actions and warnings, the checks of the pool's options and the sign-in settings, and the wording of refusals are not modelled; the options are a map that overrides the pool's.
- Alerts.Notifier.Notify: which destination failed and the wording of messages are not modelled.
- Key policy between peers, administrator records, certificate files and their transfer.
- `build_webui`, which promotes, publishes and moves back; its three parts are modelled one by one.
- Parsing of URLs and certificate details, log lines, time formats, and everything that calls out (HTTP, sockets, `systemctl`, `acme.sh`).
- The Flask routes, the command line, the JavaScript interface, Home Assistant entities, keepalived and Prometheus text.
