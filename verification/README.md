# Verification of the application kit's core logic

This project models the parts of the kit whose correctness is not plain from reading one function, and proves what
they keep.

- **SQL text** (`Text`, `SqlScanner`, `SqlStructure`, `SqlComposition`, `SqlTokens`, `SqlCompat`, `SqlGuard`,
  `SqlQuoting`): the migration guard's hand-written scanner against a recursive lexer; its dollar quotes by their
  characters; how its statements compose; what is reported and what markers waive; and that SQL printed with quoted
  names reads back.
- **The runtime role** (`Privileges`, `Reconcile`, `Convergence`, `PlanSql`, `PlanReader`): the planner that brings a
  catalog to the manifest, the comparison that judges effective privileges, where the two agree, and that the plan's
  text, read by a vocabulary of its own, does what the plan does.
- **Transactions beside one another** (`Tenancy`, `Invitations`, `InvitationRuns`, `InvitationRoles`,
  `InvitationLocks`, `InvitationStore`, `InvitationStanding`, `AdminStatus`, `AdminStatusRuns`, `AdminStatusListing`,
  `AdminStatusStore`, `AdminStatusLaw`, `DefaultOrganization`, `DefaultOrganizationRuns`, `DefaultOrganizationStore`,
  `DefaultOrganizationAlone`): statements over maps of rows, row and advisory locks held to commit, failure at any
  statement. A run is any sequence of actions; an action that would wait leaves everything as it is. The `Store` classes hold the same calls in their imperative form.
- **Access** (`Access`, `AccessPermissions`): the ranked choice of a membership, the cookie, borrowed sessions, permissions.
- **Client addresses** (`Numerals`, `Ipv6`, `ClientIp`, `ClientIpText`): canonical IPv6 text (RFC 5952, sections 4 and
  5), the /64 key, and the trusted hop.
- **Bounded loops** (`DeployGate`, `Retention`, `BoundedBody`, `LoginNames`, `LoginArgs`, `RetireLogins`).

Eight statements hold only under a condition, which the project states and proves to be the exact one:

- Printed SQL reads back exactly when no name holds a CRLF, which the splitter rewrites (`PlanSql.PlanReadsBack`).
- The plan of a reconcile names what will stay forbidden exactly when nothing outside the manifest is held both directly
  and through a membership; the plan after the run always does (`Convergence.FirstPlanForetells`).
- An invitation's role is sure to arrive with an active membership, whatever others do before the commit, exactly when
  the transaction wrote the membership: one that is already active is read without a lock
  (`InvitationRoles.RoleSafeExactlyWhen`, and a failing run in `InvitationRoles.BlockedMemberGetsRole`).
- A change by one organization's administrator is sure not to block an account that is shared when it commits, whatever
  others do first, exactly when it read the account as shared: that read stands before the transaction, and a membership
  added in between is not seen (`AdminStatusRuns.SharedSafeExactlyWhen`, `AdminStatusRuns.StaleReadBlocksShared`). An
  account shared from the start is never more than lifted (`AdminStatusRuns.SharedOnlyLifted`).
- The last superuser grant survives every run in which no membership appears behind a change's two unlocked reads: of the
  target's memberships elsewhere, before the transaction, and of the ones it would move, listed before the grants are
  locked (`AdminStatusRuns.LastSuperadminStays`, `AdminStatusLaw.SomeSuperadminStays`). Either gap alone loses it (`AdminStatusRuns.StaleReadStripsLast`,
  `AdminStatusListing.LateMemberStripsLast`). After the listing, memberships still to be added can make a change
  end the last grant exactly when its version is current, it ends every grant that counts, and it would also end a
  superuser assignment outside its list that counts or lacks only a membership (`AdminStatusListing.SafeExactlyWhen`).
  A commit leaves no grant exactly when it ends every one that counts (`AdminStatus.LeavesNoneExactlyWhen`).
- A client on a chain of proxies can change neither the trusted hop nor its limiter key exactly when the chain is at
  least as long as the trusted proxies (`ClientIp.HopFixedExactlyWhen`, `ClientIpText.KeyFixedExactlyWhen`).
- A body under a cap never has more than the cap and one chunk of it held, as the comment at
  `src/lib/bounded-body.ts:19-21` has it, exactly when it is refused or twice its size is within that: the answer is
  copied into an array while every chunk is still held (`BoundedBody.CapAndChunkExactlyWhen`,
  `BoundedBody.DripsHeldTwice`).
- The audit log is drained in one call exactly when the batch size, or the number of expired rows, is within the
  database function's cap (`Retention.Database.PruneAudit`).

`dafny verify dfyconfig.toml` checks the whole project.

## Model

| member | source | states |
|---|---|---|
| `SqlScanner.LeadingComments` | src/db/migration-compat.ts:54-65 | The backward loop over the lines collects exactly the run of comment lines that ends on the statement's own line. |
| `SqlScanner.SkipBlockComment` | src/db/migration-compat.ts:102-115 | The depth-counting loop ends where the recursive reading of nested block comments ends. |
| `SqlScanner.SkipQuoted` | src/db/migration-compat.ts:127-141 | The quote loop ends at the first closing quote that is not doubled, or at the end of the text. |
| `SqlScanner.NextToken` | src/db/migration-compat.ts:94-150 | One turn of the scanner takes exactly the next token of the reference lexer; an unclosed quote leaves it past the end. |
| `SqlScanner.SplitStatements` | src/db/migration-compat.ts:72-154 | The index-driven scanner terminates and returns the statements of the recursive reference lexer, leading comments and line numbers included. |
| `SqlTokens.DollarBodyRead` | src/db/migration-compat.ts:142-148 | After anything but a word character or a dollar, `$tag$body$tag$` is one token to the end of the second tag, whatever the body holds, for every tag of letters, digits and underscores within 64 characters, `$$` too. |
| `SqlTokens.OpenBodyRead` | src/db/migration-compat.ts:142-148 | A body whose tag never comes again takes the rest of the text and stays open. |
| `SqlTokens.DollarOpensExactlyWhen` | src/db/migration-compat.ts:142-150 | A dollar starts a body if and only if one may open there and such a tag starts there; any other is one plain character. |
| `SqlTokens.BodyIsOnePiece` | src/db/migration-compat.ts:67-71 | A statement of words and quoted names around a dollar-quoted body, with separators in it, is one piece and ends at top level. |
| `SqlTokens.BodyBegins` | src/db/migration-compat.ts:67-71 | So is a statement that begins with such a body. |
| `SqlTokens.NameBegins` | src/db/migration-compat.ts:67-71 | And one that begins with a quoted name. |
| `SqlTokens.LineReads` | src/db/migration-compat.ts:84-88 | A statement's line is the number of lines its text up to the first token splits into. |
| `SqlStructure.SplitPartition` | src/db/migration-compat.ts:72-154 | Statement ranges are in bounds, increasing and disjoint together with the comments each owns, so a leading line belongs to one statement; every code token is in some range, no top-level separator is, and every character outside is white space, comment or separator. |
| `SqlComposition.PiecesCompose` | src/db/migration-compat.ts:72-154 | If a text ends at top level, cutting it, a separator and a second text gives the ranges of the first and the shifted ranges of the second. |
| `SqlComposition.SplitCompose` | src/db/migration-compat.ts:72-154 | Splitting `a;b` gives the statements of `a`, then those of `b` with their lines moved by the newlines of `a`. |
| `SqlCompat.Clauses` | src/db/migration-compat.ts:258-273 | The loop cuts the text exactly at the commas and semicolons outside parentheses. |
| `SqlCompat.CutsIntoUnique` | src/db/migration-compat.ts:258-273 | There is only one way to cut a text so. |
| `SqlCompat.MarkerOf` | src/db/migration-compat.ts:314-322 | The early-returning loop finds the strongest marker of the leading lines. |
| `SqlCompat.FindCompatViolations` | src/db/migration-compat.ts:331-353 | The violations are those of the statements in order, patterns before clauses, with what the marker waives left out. |
| `SqlGuard.ViolationsCompose` | src/db/migration-compat.ts:72-154 | The violations of `a;b` are those of `a`, then those of `b` with their lines moved, when `a` ends at top level. |
| `SqlGuard.MarkerRaised` | src/db/migration-compat.ts:324-328 | A stronger marker leaves exactly the violations it does not waive. |
| `SqlGuard.MarkersOnlyWaive` | src/db/migration-compat.ts:324-353 | Raising any markers only removes violations, and never a forbidden or an idempotency one. |
| `SqlGuard.LeadingUnder` | src/db/migration-compat.ts:54-65 | A comment line put above a text reaches its first statement exactly when only comment lines stand between. |
| `SqlGuard.StatementsUnderLine` | src/db/migration-compat.ts:72-154 | A comment line put above a text changes nothing but the leading comments of its first statement, and every line number by one. |
| `SqlGuard.CommentLineOnlyWaives` | src/db/migration-compat.ts:311-353 | Putting a comment line above a migration only removes violations, and no hard one. |
| `SqlGuard.GuardReportsExactly` | src/db/migration-compat.ts:311-353 | A violation is reported exactly when some statement does what a pattern or a clause names and no line above it excuses that rule: contract what contracts, expand or contract what tightens, nothing the rest; on its line, with its first 120 characters. |
| `SqlQuoting.UndoubledDoubled` | src/db/runtime-privileges.ts:218-227 | Reading doubled quotes as one undoes the doubling, for identifiers and literals. |
| `SqlQuoting.QuoteIdentReads` | src/db/runtime-privileges.ts:218-221 | An identifier is refused exactly when it is empty or holds a NUL; a quoted one closes at its end and reads back as the name. |
| `SqlQuoting.QuoteLiteralReads` | src/db/runtime-privileges.ts:224-227 | A literal is refused exactly when it holds a NUL; a quoted one closes at its end and reads back as the value. |
| `SqlQuoting.QuotedInjective` | src/db/runtime-privileges.ts:218-227 | Two names, or two literals, print alike only when they are the same. |
| `SqlQuoting.CloseOfDoubled` | src/db/migration-compat.ts:127-141 | The scanner closes a quoted name at its own quote, whatever the name holds. |
| `SqlQuoting.StatementIsOnePiece` | src/db/runtime-privileges.ts:291-303 | A statement of fixed words and quoted names is one range to the splitter, from its first to its last character. |
| `SqlQuoting.SplitJoined` | src/db/migration-compat.ts:72-154 | Joining printed statements with `;` and splitting gives each back, but for the rewriting of CRLF. |
| `SqlQuoting.PrintScanRoundTrip` | src/db/runtime-privileges.ts:291-303 | Print and scan undo each other exactly when no printed statement holds a CRLF. |
| `Privileges.PlanPrivilegeRepair` | src/db/runtime-privileges.ts:263-277 | Per manifest table that exists, the privileges to grant and to revoke, in manifest and privilege order; no entry for a table already there. |
| `Privileges.ComparePrivileges` | src/db/runtime-privileges.ts:344-378 | The report of effective privileges: missing, forbidden, attributes and memberships, in the source's order. |
| `Privileges.PlanRuntimeReconcile` | src/db/runtime-privileges.ts:443-502 | The plan the loops build is the planned statements in order, with counts that add up to their number. |
| `Reconcile.ReconcileReaches` | src/db/runtime-privileges.ts:443-502 | Running the plan on any catalog brings the direct grants of every manifest table to the manifest, leaves unlisted tables, PUBLIC and inherited grants untouched, and sets exactly the schema, function and default privileges it names. |
| `Reconcile.ReconcileSettles` | src/db/runtime-privileges.ts:443-502 | Read back in any order, a catalog at the manifest gives a plan without statements: the reconcile is a fixed point after one run. |
| `Convergence.UnexplainedIsForbidden` | src/db/runtime-privileges.ts:344-378 | After a run, what the next plan cannot explain on manifest tables is exactly what the comparison calls forbidden there. |
| `Convergence.FirstPlanMisses` | src/db/runtime-privileges.ts:456-471 | The plan of the run itself names all of that but what is masked: held directly and by inheritance, and not by PUBLIC. |
| `Convergence.FirstPlanForetells` | src/db/runtime-privileges.ts:456-471 | The first plan foretells what stays forbidden if and only if no privilege outside the manifest is masked on a manifest table. |
| `Convergence.MaskedPrivilegeSurvives` | src/db/runtime-privileges.ts:456-471 | With the kit's own entry for `app_users`: DELETE held directly and through `pg_write_all_data` leaves the first plan nothing unexplained, and is still held after the run. |
| `Convergence.RunPasses` | src/db/migrations/runtime-privileges-db.ts:157-230 | A run is neither refused before nor failed after the repair if and only if PUBLIC and memberships hold nothing outside the manifest on its tables. |
| `Convergence.NothingMissingAfter` | src/db/runtime-privileges.ts:344-378 | After a run the comparison finds no table privilege missing. |
| `Convergence.ForbiddenIs` | src/db/runtime-privileges.ts:363-370 | A table privilege is reported forbidden exactly when it is held, from any source, and the manifest does not list it. |
| `Convergence.UnlistedIs` | src/db/runtime-privileges.ts:456-460 | A table is reported as unlisted exactly when the manifest has no entry for it. |
| `Convergence.ReportReads` | src/db/runtime-privileges.ts:344-378 | Besides tables the report misses exactly the manifest's functions that are absent or not executable and the use of the schema, and forbids exactly creating in the schema, in `public` and in the database. |
| `PlanSql.PlanRenders` | src/db/runtime-privileges.ts:218-221 | A plan renders unless it uses a name that is empty or holds a NUL. |
| `PlanSql.PlanReadsBack` | src/db/runtime-privileges.ts:291-303 | Joined with `;` and split again, the plan's statements come back as they were, for all names that can be quoted, exactly when none used holds a CRLF. |
| `PlanReader.TextMeansStatement` | src/db/runtime-privileges.ts:279-303 | Read by a vocabulary of its own, the text of every statement is that statement, about that schema and that role; a function's argument list is read as it prints. |
| `PlanReader.TextsExecute` | src/db/runtime-privileges.ts:291-303 | Running the texts of a plan one by one is running its statements. |
| `PlanReader.TextReaches` | src/db/runtime-privileges.ts:443-502 | The reconcile as text, joined, split again and run on any catalog, brings the role's grants to the manifest and changes nothing else, when no name used holds a CRLF. |
| `InvitationRuns.RunKeeps` | src/lib/invitations.server.ts:415-658 | Over every interleaving, uncommitted writes stay possible to commit, no two sessions hold one row, and a consumed invitation is its session's user's. |
| `InvitationRuns.SettledForGood` | src/lib/invitations.server.ts:665-711 | An invitation leaves `pending` once: accepted, revoked or voided, no run of creates, resends, revokes, voids, consumes and failures changes it again. |
| `InvitationRuns.ConsumedOnce` | src/lib/invitations.server.ts:524-545 | Whatever runs beside whatever, at most one session consumes an invitation. |
| `InvitationRuns.ConsumedBy` | src/lib/invitations.server.ts:524-545 | The accepted row names the account whose session consumed it. |
| `InvitationRuns.SessionChanges` | src/lib/invitations.server.ts:474-631 | Each statement of a consuming session changes nothing, or voids its own invitation, or commits one acceptance: pending to accepted, the account at most pending to active, the membership at most absent or pending to active, at most the invitation's role in its organization, and nothing else. |
| `InvitationRuns.UnconsumedChangesNothing` | src/lib/invitations.server.ts:400-410 | Over any run, a session that failed, was refused (but for voiding) or is under way has changed no row. |
| `InvitationRuns.SettledNeverLive` | src/lib/invitations.server.ts:208-243 | No token finds a settled invitation at any later time. |
| `InvitationRuns.ResendMovesLink` | src/lib/invitations.server.ts:693-711 | A resend kills the old link and makes the new one live until its expiry while the organization is active; no other link changes. |
| `InvitationRuns.OnePendingRuns` | src/lib/invitations.server.ts:168-191 | Over any run an address has at most one pending invitation into an organization. |
| `InvitationRoles.ConsumedOnStanding` | src/lib/invitations.server.ts:429-456 | A consumed invitation was read for its own address by an eligible account; its inviter had standing, and it stood pending into an active organization, at a moment of the run. |
| `InvitationRoles.RoleSafeExactlyWhen` | src/lib/invitations.server.ts:549-625 | About to commit a role, a session is sure to commit it with an active membership, whatever everyone else does before its commit, if and only if its own transaction wrote the membership. |
| `InvitationRoles.RoleArrivesWithMembership` | src/lib/invitations.server.ts:600-625 | In a run where nobody takes this session's own active membership away between its grant and its commit, its role arrives with an active membership, whatever happens to any other. |
| `InvitationRoles.BlockedMemberGetsRole` | src/lib/invitations.server.ts:549-625 | A run in which a membership read active is blocked before the commit, and the role is written all the same. |
| `InvitationLocks.LockedRowsKept` | src/lib/invitations.server.ts:473-640 | While a transaction is under way nobody else changes the invitation it flipped, the membership it made or activated, or the account it lifts, nor takes its role away. |
| `InvitationLocks.WritesGoThrough` | src/lib/invitations.server.ts:473-640 | A write to rows no transaction under way has locked goes through. |
| `InvitationLocks.RoleGone` | src/lib/invitations.server.ts:473-520 | A role that none reads, in no invitation one has flipped, is deleted from roles, assignments and invitations. |
| `InvitationStore.AloneIsRun` | src/lib/invitations.server.ts:415-658 | The call run alone, failing at any statement or none, is one of the interleavings. |
| `InvitationStore.ConsumesExactlyWhen` | src/lib/invitations.server.ts:415-658 | Run alone, every outcome and its condition: each refusal in its order, and consumption exactly when address, status, standing, pending and active organization all hold, with exactly the rows it then writes. |
| `InvitationStore.FailureKeepsRows` | src/lib/invitations.server.ts:400-410 | Whichever statement fails, every row is as it was. |
| `InvitationStore.Store.FindValid` | src/lib/invitations.server.ts:208-243 | The live invitation of a token, or none when there is none. |
| `InvitationStore.Store.Create` | src/lib/invitations.server.ts:168-191 | Inserts a pending invitation, or refuses when one is pending for the address. |
| `InvitationStore.Store.RevokePending` | src/lib/invitations.server.ts:665-685 | Revokes a pending invitation of the organization, and tells whether it did. |
| `InvitationStore.Store.Resend` | src/lib/invitations.server.ts:693-711 | Rotates token and expiry of a pending invitation of the organization, and tells whether it did. |
| `InvitationStore.Store.EnforceStanding` | src/lib/invitations.server.ts:319-357 | Voids the pending invitation of an inviter without standing, and nothing else. |
| `InvitationStore.Store.Consume` | src/lib/invitations.server.ts:415-658 | The imperative consume leaves the tables and the outcome of the state machine run alone. |
| `InvitationStore.Store.Accept` | src/lib/invitations.server.ts:474-631 | The transaction leaves the tables and the outcome of the machine's statements from the locks to the commit. |
| `InvitationStanding.PassesExactlyWhen` | src/lib/invitations.server.ts:280-296 | At its check a session goes on if and only if, at that moment, the inviter is recorded, active and not banned, and holds a superuser role through an active membership in an active organization, or as an active member of the invitation's a role carrying `admin.orgs.manage` or the marker. |
| `InvitationStanding.VoidsByNobody` | src/lib/invitations.server.ts:322-352 | Otherwise the answer is that the inviter lacks standing, and a pending row is revoked by nobody. |
| `InvitationStanding.ConferringExactlyWhen` | src/lib/invitations.server.ts:371-382 | A session may grant its role exactly when, at that moment, the inviter is such a superuser or holds in the organization every key the role carries. |
| `InvitationStanding.ConsumedInviterStood` | src/lib/invitations.server.ts:280-296 | Over every run a consumed invitation's inviter stood so at one of its moments. |
| `InvitationStanding.GrantWasConferrable` | src/lib/invitations.server.ts:464-471 | Over every run a session that may grant its role had an inviter able to confer it at one of its moments. |
| `InvitationStanding.RefusedForInviterExactlyWhen` | src/lib/invitations.server.ts:429-463 | Alone, an eligible acceptance is refused for its inviter if and only if the inviter does not stand, and then the pending row is revoked by nobody and nothing else changes. |
| `InvitationStanding.AcceptsExactly` | src/lib/invitations.server.ts:415-658 | Alone, every answer under its condition in the rows, in order, and what an acceptance writes to each table. |
| `AdminStatus.Confined` | src/lib/admin-status.server.ts:244-279 | A transaction leaves every membership outside its target and scope, every other account and every grant untouched, and at most lifts an account its unlocked read found shared. |
| `AdminStatus.BeyondLiftExactlyWhen` | src/lib/admin-status.server.ts:244-258 | A commit of one organization's change does more to an account than lift it from pending to active exactly when it read the account as not shared, is not refused, and sets some other status. |
| `AdminStatus.SecondClaim` | src/lib/admin-status.server.ts:208-217 | A second change on the same expected version passes the claim only if the first was stamped in that very millisecond. |
| `AdminStatus.CountsAfter` | src/lib/admin/access-scope.server.ts:830-890 | A counting superuser grant still counts after a committed change exactly when the change ends neither its holder's account nor its membership. |
| `AdminStatus.LeavesNoneExactlyWhen` | src/lib/admin-status.server.ts:185-279 | Whatever its check read, a committed change that met a counting grant leaves none if and only if it ends every one; with a listing and a count true at the commit, if and only if it takes the account away and that account holds them all. |
| `AdminStatus.CautiousReadKeepsGrant` | src/lib/admin-status.server.ts:143-192 | Where the unlocked read errs at most on the side of seeing the account shared, and the check on that of seeing the last grant stripped, some superuser grant counts after the change. |
| `AdminStatusRuns.LastSuperadminStays` | src/lib/admin-status.server.ts:143-280 | Over every run of changes, sign-ins and new memberships in which no membership appears where a change that takes away has already looked for one elsewhere, or listed what it would move and not yet read the grants, if some superuser grant counts at the start, one counts after every step. |
| `AdminStatusRuns.StaleReadStripsLast` | src/lib/admin-status.server.ts:146-154 | A run in which a membership added after the unlocked read lets an organization's administrator remove the last superadmin. |
| `AdminStatusRuns.SharedOnlyLifted` | src/lib/admin-status.server.ts:141-259 | Over every run in which an account that is also a member elsewhere is changed by one organization only, its status stays or goes from pending to active. |
| `AdminStatusRuns.StaleReadBlocksShared` | src/lib/admin-status.server.ts:144-154 | The same run blocks, everywhere, an account that is shared when the change commits. |
| `AdminStatusRuns.SharedSafeExactlyWhen` | src/lib/admin-status.server.ts:141-259 | About to set more than a lift, a change of one organization is sure not to reach a shared account with it, whatever everyone else does before its commit, if and only if it read the account as shared. |
| `AdminStatusListing.LateMemberStripsLast` | src/lib/admin/access-scope.server.ts:929-947 | A run in which the last superadmin, acting on themselves, leaves none: a membership is added between the listing of theirs and the grant read, though the check refuses with both reads before it or both after it. |
| `AdminStatusListing.SafeExactlyWhen` | src/lib/admin/access-scope.server.ts:929-947 | Its memberships listed and its grants yet to be read, a change is sure to leave a superuser grant, whatever memberships are added before the read, if and only if not all of this holds: its version is current, it ends every counting grant, and it would also end a superuser assignment outside its list that counts or lacks only a membership. |
| `AdminStatusLaw.SomeSuperadminStays` | src/lib/admin/access-scope.server.ts:830-890 | Over the same runs, after every step: if some direct assignment of a superuser role has an active organization, an active membership and an active account without a ban, some such assignment is still there. |
| `AdminStatusLaw.LastSuperadminExactlyWhen` | src/lib/admin-status.server.ts:185-236 | Alone, the answer is the last superadmin exactly when version and account let the change through, it takes the membership away, such an assignment exists, and every one is the target's within its scope. |
| `AdminStatusLaw.DoneLeavesSome` | src/lib/admin-status.server.ts:185-280 | Alone, no change leaves no such assignment where there was one. |
| `AdminStatusLaw.OnlySignedInSince` | src/lib/admin-status.server.ts:314-334 | After an account-wide shut-out answers ok, a sign-in session owned or borrowed by the account was opened after the commit. |
| `AdminStatusLaw.EndsExactly` | src/lib/admin-status.server.ts:314-334 | Alone, a sign-in session is ended exactly when the change takes away, reaches the whole account, and the account owns or borrowed the session. |
| `AdminStatusRuns.DeactivatedForGood` | src/lib/admin-status.server.ts:218-231 | Over every run of status changes, a deactivated account stays deactivated. |
| `AdminStatusRuns.OtherOrgsUntouched` | src/lib/admin-status.server.ts:260-279 | A run of changes by one organization's administrators leaves every membership elsewhere as it was. |
| `AdminStatusRuns.OneChangePerVersion` | src/lib/admin-status.server.ts:194-217 | Of all changes sent with one version at most one is ever in the tables, when no transaction starts in the version's millisecond. |
| `AdminStatusRuns.ShutOutEndsSessions` | src/lib/admin-status.server.ts:314-334 | After an account-wide shut-out answers ok, every sign-in session by or borrowed by the account was opened after the commit. |
| `AdminStatusRuns.OkMeansNone` | src/lib/admin-status.server.ts:314-334 | With no sign-in meanwhile, ok means no session by or borrowed by the account is left. |
| `AdminStatusStore.AnswersExactly` | src/lib/admin-status.server.ts:131-379 | Run alone, each answer and its condition in order: not found, stale version, restore, last superadmin, done; a denial changes nothing. |
| `AdminStatusStore.Store.Perform` | src/lib/admin-status.server.ts:131-379 | The imperative change leaves the tables, the sign-in sessions and the answer of the state machine run alone. |
| `AdminStatusStore.Store.Write` | src/lib/admin-status.server.ts:208-279 | Claim, refusals and writes of the transaction, in order, come to the transaction's function of the rows. |
| `DefaultOrganization.AdvancedSound` | src/lib/default-organization.server.ts:97-205 | Each statement of a move, clear or guarded delete keeps what its commit will leave flagged as its outcome says. |
| `DefaultOrganizationRuns.RunKeeps` | src/lib/default-organization.server.ts:84-86 | Over every interleaving the lock is held by one transaction and each is sound. |
| `DefaultOrganizationRuns.MoveLeavesOne` | src/lib/default-organization.server.ts:121-155 | Whatever was flagged before, a committed move leaves its target flagged and nothing else, and names the ones it cleared. |
| `DefaultOrganizationRuns.OneAtEveryCommit` | src/lib/default-organization.server.ts:84-205 | From exactly one flagged organization, exactly one at every commit of every run of moves, clears, deletes and creations. |
| `DefaultOrganizationRuns.OneAtEveryStatement` | src/lib/default-organization.server.ts:131-155 | And at most one at every statement, in what each transaction sees and has written. |
| `DefaultOrganizationRuns.CommitKeepsDefault` | src/lib/default-organization.server.ts:170-185 | From several flags, a commit that is not a move's keeps the default, and takes one flag off exactly when it cleared an extra. |
| `DefaultOrganizationRuns.ClearAnswers` | src/lib/default-organization.server.ts:157-185 | A clear is refused exactly for the default, cleared exactly for an extra flag, unchanged exactly without one. |
| `DefaultOrganizationRuns.DefaultStays` | src/lib/default-organization.server.ts:157-205 | However many are flagged, no run without a move changes the default or adds a flag. |
| `DefaultOrganizationAlone.RunsToItsEnd` | src/lib/default-organization.server.ts:84-205 | While nobody else takes the lock, a move, a creation as default, a clear and a delete run to their end, with their answer and the rows they leave spelled out. |
| `DefaultOrganization.DefaultReads` | src/lib/default-organization.server.ts:48-60 | The default is the flagged organization before which no flagged one was created, nor together with it under a lower identifier. |
| `DefaultOrganizationStore.Store.GetDefault` | src/lib/default-organization.server.ts:48-60 | The oldest flagged organization, identifiers breaking ties, or none when none is flagged. |
| `DefaultOrganizationStore.Store.Move` | src/lib/default-organization.server.ts:121-155 | Moves the flag, or changes nothing when the target is gone. |
| `DefaultOrganizationStore.Store.Clear` | src/lib/default-organization.server.ts:170-185 | Refuses the default, takes an extra flag off, and leaves the default the same. |
| `DefaultOrganizationStore.Store.Delete` | src/lib/default-organization.server.ts:187-205 | Deletes an organization exactly when it is not flagged. |
| `Access.GetUserAccessContext` | src/lib/auth-status.ts:174-440 | The context built up by reassignment is the resolved membership's, or that of none. |
| `Access.ResolvedIsBest` | src/lib/auth-status.ts:323-344 | On the session path the resolved membership is the lexicographic best of the candidates, and the only one. |
| `Access.ResolvedReads` | src/lib/auth-status.ts:255-344 | Active before any other status, then the cookie's organization, then the earliest, identifiers breaking ties. |
| `Access.UnboundIsEarliest` | src/lib/auth-status.ts:227-254 | An organization-less credential acts in its earliest counting membership, whatever that one's status. |
| `Access.AllowedExactlyWhen` | src/lib/auth-status.ts:80-91 | A session is allowed exactly when the account is active and so is some candidate membership. |
| `Access.AllowIgnoresCookie` | src/lib/auth-status.ts:255-344 | Whether a session is allowed is the same for every cookie. |
| `Access.CookieVariesExactlyWhen` | src/lib/auth-status.ts:255-344 | The cookie can change a refusal between waiting and blocked exactly when an active account has both kinds of membership and no active one. |
| `Access.CookieReaches` | src/lib/auth-status.ts:255-344 | Naming an organization resolves to it when its membership is active, or when none is. |
| `Access.BoundIgnoresCookie` | src/lib/auth-status.ts:225-254 | A bearer credential's whole context ignores the cookie and never leaves the organization it is bound to. |
| `Access.MemberEnters` | src/lib/active-org.server.ts:159-173 | An active member who names the organization enters it, allowed. |
| `Access.BorrowedReach` | src/lib/auth-status.ts:310-344 | An organization a borrowed session resolves to is one its borrower, when no global superuser, enters, allowed, as themselves. |
| `Access.BannedReachesNothing` | src/lib/impersonation-reach.server.ts:62-75 | A banned borrower's session resolves no organization, holds no permission and is never allowed. |
| `Access.SuperuserUnconfined` | src/lib/impersonation-reach.server.ts:62-75 | A superuser no ban stops is not confined. |
| `AccessPermissions.ResolvesExactly` | src/lib/auth-status.ts:225-344 | A request resolves exactly when the user has a membership in an active organization that the credential or the borrower allows; to an active one first, then the cookie's, then the earliest; a credential to the earliest. |
| `AccessPermissions.DecidesExactly` | src/lib/auth-status.ts:40-91 | Allow, wait and block by the raw statuses: an unknown account status blocks, an unknown membership status counts as suspended. |
| `AccessPermissions.PermittedExactlyWhen` | src/lib/auth-status.ts:352-426 | A key is permitted exactly when a role held in the organization, directly or by a group, carries it, or it is the shell's of an allowed user, or one of a superuser's, by the marker there or a direct grant anywhere. |
| `AccessPermissions.OnlyHeldThere` | src/lib/auth-status.ts:352-378 | For who is no superuser, any key but the shell's comes from a role held in that very organization. |
| `AccessPermissions.OthersConferNothing` | src/lib/auth-status.ts:352-378 | For such users, assignments to anyone else or in any other organization leave the whole context as it is. |
| `Ipv6.PrintRead` | src/lib/client-ip.ts:85-97 | Reading the canonical print of an address gives the address, with a dotted tail or without. |
| `Ipv6.LongestIs` | src/lib/client-ip.ts:85-97 | The run compressed is the longest run of zero groups, and the first of two as long. |
| `ClientIp.SubjectIsPrefix` | src/lib/client-ip.ts:108-122 | For every 128-bit address in canonical print, the limiter's subject is the canonical print of the address with its low 64 bits cleared, and `/64`. |
| `ClientIp.KeysAgreeExactlyWhen` | src/lib/client-ip.ts:99-122 | Two IPv6 addresses share a subject exactly when their first 64 bits agree. |
| `ClientIp.PrependingIgnored` | src/lib/client-ip.ts:142-178 | On a chain at least as long as the trusted proxies, nothing put in front of it changes the hop. |
| `ClientIp.HopFixedExactlyWhen` | src/lib/client-ip.ts:142-178 | The hop is beyond a client's reach if and only if the chain is at least as long as the trusted proxies. |
| `ClientIp.FirstProxyTrusted` | src/lib/client-ip.ts:142-167 | Once each trusted proxy has added the address it saw, the hop is the one the first of them added, whatever the client sent. |
| `ClientIp.OtherHops` | src/lib/client-ip.ts:130-165 | A named header is taken as it is; without a chain, a real-address header that is not blank; with no source, nothing. |
| `ClientIp.ShortChainFollows` | src/lib/client-ip.ts:168-178 | Whatever text with an entry in it is put in front of a chain shorter than the trusted proxies, the hop is one of the text's own: its leftmost while the whole is no longer than they are. |
| `ClientIpText.ResultIsNormal` | src/lib/client-ip.ts:68-97 | Every normalized address is a valid dotted quad or a canonical print, and normalizing it again gives it back. |
| `ClientIpText.PortStripped` | src/lib/client-ip.ts:68-83 | A port after an IPv4 address is dropped. |
| `ClientIpText.BracketsStripped` | src/lib/client-ip.ts:68-83 | Brackets around an IPv6 address, with a port or without, change nothing. |
| `ClientIpText.ClientFixed` | src/lib/client-ip.ts:130-178 | Prefixing a long enough chain changes neither the client's address nor its key. |
| `ClientIpText.SameSubjectExactlyWhen` | src/lib/client-ip.ts:108-122 | Two normalized addresses count under one key exactly when they are the same IPv4 address or IPv6 addresses of one /64. |
| `ClientIpText.ShortChainChoosesKey` | src/lib/client-ip.ts:274-277 | On a shorter chain a client counts under whatever normalized address it puts in front. |
| `ClientIpText.KeyFixedExactlyWhen` | src/lib/client-ip.ts:168-178 | A client's key is beyond its reach if and only if the chain is at least as long as the trusted proxies. |
| `ClientIpText.EveryRequestHasKey` | src/lib/client-ip.ts:274-277 | Every request has a key, the shared one exactly when it has no trustworthy address. |
| `ClientIpText.StampIgnoresClient` | src/lib/client-ip.ts:233-262 | What a client sent in the stamped header never matters, and stamping again changes nothing. |
| `ClientIpText.RequestHeaders.ApplyClientIp` | src/lib/client-ip.ts:233-240 | Sets the header to the client's address, or removes it. |
| `ClientIpText.RequestHeaders.WithTrustedClientIp` | src/lib/client-ip.ts:256-260 | A stamped copy; the original is left alone. |
| `DeployGate.RunGateLoop` | src/db/deploy-gate.ts:444-466 | At most `waitMs / pollMs + 1` attempts, never one after ok or fatal, and the last attempt's verdict, reasons and time as the outcome. |
| `DeployGate.OneOutcome` | src/db/deploy-gate.ts:434-466 | The outcome is determined: the first attempt after which the schedule has no other. |
| `DeployGate.PassesExactlyWhen` | src/db/deploy-gate.ts:434-466 | The gate passes exactly when some attempt is ok and the schedule reaches it. |
| `DeployGate.ProductionNeverSkips` | src/db/deploy-gate.ts:133-203 | A build on Vercel's machines is skipped only for a named environment other than production; a production build is skipped only elsewhere, for the commit that was migrated. |
| `DeployGate.PlanReads` | src/db/deploy-gate.ts:133-203 | Each of the eleven plans and its condition on what the environment says, wait, poll and database included. |
| `DeployGate.Exit` | scripts/deploy-gate.ts:69-178 | The build exits 0 if and only if it is skipped, or verified without trouble with some attempt ok that the schedule reaches; a production build on Vercel's machines only when some attempt was ok. |
| `Retention.Database.InBatches` | src/lib/retention.server.ts:96-114 | While the clock moves on between batches, they work on due rows only, each once, count them, and stop only when none is left due or the deadline has come. |
| `Retention.Database.FailStalePending` | src/lib/retention.server.ts:204-235 | Fails exactly the stale pending rows when no deadline stops it. |
| `Retention.Database.PruneOutbox` | src/lib/retention.server.ts:167-190 | Deletes exactly the due terminal rows when no deadline stops it. |
| `Retention.Database.PruneAudit` | src/lib/retention.server.ts:134-156 | Without a deadline the expired audit rows are drained if and only if the batch is within the database's cap or their number is. |
| `Retention.Database.PruneAll` | src/lib/retention.server.ts:277-299 | The counts are of the rows changed; without a deadline the outbox and the audit log are settled as of the last batches; however it was stopped, a later full run comes to the same. |
| `Retention.BothSweepsSettle` | src/lib/retention.server.ts:277-299 | What survives is the initial rows minus terminal ones past the retention window and pending ones past both; stale pending rows inside it are failed. |
| `Retention.StoppedRunLosesNothing` | src/lib/retention.server.ts:85-95 | Any part of a run, by a time no later, followed by a full run leaves what the full run alone leaves. |
| `Retention.SettledReads` | src/lib/retention.server.ts:167-235 | What a full run leaves of each mail, in its row and in days of 24 hours. |
| `Retention.ExpiredReads` | src/lib/retention.server.ts:134-156 | An audit row is in reach of a prune when it is older than the days asked for and than thirty. |
| `BoundedBody.ReadBoundedBody` | src/lib/bounded-body.ts:42-80 | The loop answers by the delivered bytes alone, asks for chunks up to the one that passes the cap and for none when the declared length is over it, and holds at most what `Held` says: the chunks, and for an answer as much again for the array. |
| `BoundedBody.ReachIs` | src/lib/bounded-body.ts:53-68 | The chunks asked for are those before which everything fits, up to the first that does not or the last. |
| `BoundedBody.ReadIs` | src/lib/bounded-body.ts:53-68 | What is read passes the cap exactly when the body does, and by at most one chunk; otherwise it is the whole body. |
| `BoundedBody.HeldBound` | src/lib/bounded-body.ts:42-80 | Never more is held than the larger of the cap and one chunk, and twice the cap. |
| `BoundedBody.CapAndChunkExactlyWhen` | src/lib/bounded-body.ts:19-21 | No more than the cap and one chunk is ever held if and only if the body is refused, or twice its size is within the cap and one chunk. |
| `BoundedBody.DripsHeldTwice` | src/lib/bounded-body.ts:71-77 | A body of exactly the cap, arriving byte by byte, is held twice over. |
| `BoundedBody.Fill` | src/lib/bounded-body.ts:71-77 | The byte array filled by offsets is the chunks' bytes in order. |
| `BoundedBody.ChunksDoNotMatter` | src/lib/bounded-body.ts:53-69 | However the same bytes are cut into chunks, the answer is the same. |
| `BoundedBody.FitsExactlyWhen` | src/lib/bounded-body.ts:42-80 | On a stream that does not fail the bytes come back exactly when they fit, and are too large exactly when they do not. |
| `BoundedBody.HeaderMattersExactlyWhen` | src/lib/bounded-body.ts:43-48 | A declared length changes the answer exactly when it is over the cap and the delivered bytes are not: an honest one never does. |
| `BoundedBody.DeclaredExactlyWhen` | src/lib/bounded-body.ts:43-48 | A length is declared exactly by decimal digits between white space, and is the number they print. |
| `LoginArgs.ParseRuntimeLoginArgs` | src/db/runtime-login.ts:102-196 | The index-driven loop reads the line as flags from left to right. |
| `LoginArgs.AcceptedIsMeant` | src/db/runtime-login.ts:102-196 | Every accepted line names a kit or default login, a limit in range and a host; force comes only with a retire mode; and a line with a retire mode holds no creating flag, in either form. |
| `LoginArgs.MeantReads` | src/db/runtime-login.ts:84-196 | The records the command accepts, spelled out: login names, the limit, the host's characters, and what goes with a retire mode. |
| `LoginArgs.FormsAgree` | src/db/runtime-login.ts:118-127 | `--flag value` and `--flag=value` parse alike anywhere on the line for a value not starting with two dashes. |
| `LoginArgs.ArgsRoundTrip` | src/db/runtime-login.ts:84-196 | Printing any record the command can mean, and parsing it, gives the record back. |
| `LoginNames.RotatedIsKit` | src/db/runtime-privileges.ts:151-167 | A rotated login is a kit login and never the default one. |
| `LoginNames.NamesAre` | src/db/runtime-privileges.ts:120-167 | Kit, rotated and default names by their characters, and by their length in UTF-8. |
| `RetireLogins.Cluster.Retire` | src/db/runtime-login.ts:550-621 | Drops the doomed logins one by one, keeps what is in use or fails to drop, and exits 0 exactly when it kept none; a login to keep that cannot log in stops it before anything. |
| `RetireLogins.RetiredExactly` | src/db/runtime-login.ts:550-621 | A role is gone exactly when it was a rotated login of the runtime role, not the one to keep nor the session's own, not in use unless forced, and its drop did not fail. |
| `RetireLogins.RetiredReads` | src/db/runtime-login.ts:550-621 | The same in the rows: a member that can log in, with a twelve-digit stamp, not kept, not the session's own, unused or forced, and dropped. |
| `RetireLogins.NeverRetired` | src/db/runtime-login.ts:535-549 | The default login, the one to keep, the session's own and whatever is no kit login survive every run. |

## Left out

- SqlCompat.FindCompatViolations: the guard's patterns, the marker's expression, the spelling-out of `add column` and the normalisation of a statement's text are arbitrary functions, because their backtracking says nothing about scanning and waiving.
- PlanReader.TextMeansStatement: the reader knows the seven kinds of statement the plan prints, not the rest of Postgres's grammar; an argument list is cut at its commas.
- PlanSql.PlanReadsBack: function argument types are taken to be words without quotes, `$`, `;`, `-`, `/` or carriage returns, as the manifest's are; they are the one part of the SQL the source does not quote.
- Privileges.ComparePrivileges: the names of forbidden attributes and the wording of the report's lines are not modelled; items are data.
- Reconcile.ReconcileReaches: a grant or revoke always takes effect; the source's own re-read covers a role that owns too little, where Postgres only warns.
- InvitationRoles.ConsumedOnStanding: an inviter's standing is one read, where the source reads account, ban, superuser and permissions one after the other, each true at its own moment; the same of what the inviter may confer.
- InvitationRuns.RunKeeps: accounts are never deleted (no runtime path does), and the organization's key-share lock is not modelled, because organizations are never deleted here.
- InvitationStore.Store.Consume: addresses are held normalised, tokens by their hash; the hash is injective by being the identity of a link.
- AdminStatusRuns.LastSuperadminStays: the grant rows' locks are one lock held from the grant read to the commit, and the read sees the rows as they are when it has the lock; lock queues, snapshots older than the lock and deadlocks are not modelled.
- AdminStatusRuns.StaleReadStripsLast: the rank guard in the route is not modelled; it keeps an administrator who is no superadmin from this run's target, and lets a superadmin through to that of `AdminStatusListing.LateMemberStripsLast`.
- Other writers beside a status change: the other routes that remove grants or memberships are not modelled.
- AdminStatusRuns.OneChangePerVersion: an account and its sign-in identity are one identifier, and a ban has no expiry.
- DefaultOrganizationRuns.OneAtEveryCommit: identifiers are generated, so a created row's is one nobody has named; names, slugs and the other checks of the organization routes are not modelled.
- Access.GetUserAccessContext: the cookie is a parsed identifier or none; e-mail, locale and the order of permissions are not modelled.
- ClientIp.SubjectIsPrefix: which addresses the platform prints with a dotted tail is an arbitrary choice per address; zone identifiers read as no address.
- ClientIp.TrustedHop: the two settings are parameters, and the proxy count is at least 1, as the environment reader ensures.
- DeployGate.Exit: what an attempt checks, and whether a text is a postgres URL, are parameters; the ledger's evaluation is a list of branches read off one at a time.
- Retention.Database.PruneAll: nobody else writes the outbox or the audit log while a call runs; the reading of the day counts from the environment and the two single-statement prunes are left out.
- BoundedBody.ReadBoundedBody: decoding the bytes as UTF-8 is left out.
- LoginArgs.ParseRuntimeLoginArgs: the owner's URL, the password and the creation of the login itself are left out.
- Audit rows, logging, e-mail and message wording: only the returned outcomes are modelled.
- Cryptography: tokens and hashes are identifiers.
- The web framework, the authentication library and the query builder: library behaviour.
