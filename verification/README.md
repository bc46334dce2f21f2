# Verified model of the invoicing backend

This project models the parts of the backend that keep state or run loops over it, and
proves what they guarantee. `dafny verify dfyconfig.toml` checks everything.

**Subscriptions, payments and mail access.** `Billing` holds the tables that checkout, the
Stripe webhook, the subscription cron jobs and the IMAP handlers all write, and says what
one call of each handler does to them; a run is any sequence of such calls under a clock
that never goes back. `BillingService` is the handlers themselves, statement by statement,
each proved to do exactly that, to be a step of a run, and to keep the invariant of all
runs. `BillingRuns`, `PlanRuns`, `ImapRuns`, `ConnectionRuns` and `Reminders` prove what holds
over all runs, `MonthlyLimit` when a month keeps to a plan's number of invoices, and
`Purchases` and `Mailboxes` when each reply is given and what is in every row then.
`Calendar` is the date arithmetic behind expiry dates (sections 15.9.1.2 to 15.9.1.13 of
ECMA-262 5.1, proleptic Gregorian calendar). `Scheduler` is the registry of cron jobs.

**Invoice import.** `InvoiceImport` is the keyword, message and attachment loop over a
growing invoice table; `InvoiceImportLaws` what every import keeps and why importing again
creates nothing; `InvoiceMail` which mail adds a row; `MailSync` what a synchronisation, an
import followed by a new date to read from, does to mail.

**One-time codes.** `OneTimeCodes` has the registration, login, two-factor and
password-reset flows over Redis entries that expire, `OneTimeCodeService` the handlers,
`OneTimeCodeRuns` and `OneTimeCodeLaws` the lifetime, single use and provenance of codes,
`OneTimeCodeUse` what a code just sent is good for, `Passwords` who gets in.
The journal of events in its state exists for the proofs only.

**MT940 statements.** `Mt940` is the line-driven parser and its field parsers on top of the
JavaScript string and number primitives in `JsText`; `Mt940Laws` relates it to a
segmentation of the lines, `Mt940RoundTrip` to a printer for fields 61, 60a and 62a and
whole files.

**Matching, storing, reporting.** `BankMatching` and `InvoiceMatching` are the two matching
loops, `TransactionStore` the two ways of storing without duplicates, and `Grouping`,
`Reports`, `RevenueReport` and `PlanShares` the dashboards' aggregations.

Handlers are atomic steps. What Stripe, the mail server, the PDF extractor, random
generators and the choice among equally recent rows contribute is an argument of a step.
Time is in milliseconds, UTC. `CanHappen` says what is assumed of those arguments: new ids
are new, and queries return rows that satisfy them.

## Where the code does less than expected

Each of these is a theorem, with the exact condition where there is one.

- A user whose plan has ended can never get access again, because every way to buy
  creates a second plan row for the user and that fails (`PlanRuns.EndedPlanNeverGrants`).
- Paying the link that the midnight job mails to users whose plan ended achieves nothing:
  the checkout session is recorded nowhere and the user has a plan row already
  (`Reminders.PaidReminderIsLost`). The mail says "Renew now to continue using our services".
- A synchronisation whose import fails after its first invoice moves the date it reads from
  all the same, past the mail it had not reached; and one that completes passes over a mail
  whose sender, subject and date are part of the note of another mail's invoice: the second
  of two invoices mailed within one second, or one from `a@b.nl` after one from `aa@b.nl`
  (`MailSync.LosesNothingIff`, `MailSync.AbortAfterCreating`, `MailSync.TwoMailsOneInvoice`,
  `MailSync.SuffixIsOverlooked`). The other mail's invoice may have been there before, and be
  another user's (`MailSync.RereadThenSyncLoses`, `MailSync.OtherUsersCopyHides`). Such mail
  is not looked at again unless the user resets the date or asks for a reading from the start
  (`MailSync.LostForGoodIff`, `MailSync.TooOldIsPassedOver`); and when another mail's note
  hides it, it gets no invoice from those either (`MailSync.OverlookedIsHidden`,
  `MailSync.HiddenForGood`).
- Invoice numbers are unique over all senders and users, so a mailed invoice with a number
  in use is dropped, or replaced by an empty one if the subject looks like an invoice
  (`MailSync.NumberAtHitIff`, `InvoiceImportLaws.TakenNumberIsDropped`).
- The monthly limit on invoices is checked before an import of any size, by the cron job not
  for trials, and counts only up to the first moment of the month's last day; each of the
  three takes a month past its limit (`MonthlyLimit.StaysWithinIff`,
  `MonthlyLimit.CountedIsWithoutLastDay`, `MonthlyLimit.PastTheLimit`).
- While a plan runs, a user's disconnection of the mailbox lasts until the next hourly job
  (`ConnectionRuns.DisconnectLastsIff`, `ConnectionRuns.HourlyJobReconnects`); once it has ended, an
  administrator's connection is switched off by no job (`ConnectionRuns.AdminConnectionLastsIff`).
- Upgrading before the first checkout is paid and then paying that one creates a plan row
  whose payment stays open (`PlanRuns.DeliveryPaysIff`, `PlanRuns.UpgradeThenPayOldCheckout`).
- A repeated payment event of an invoice moves its payment date
  (`BillingRuns.RedeliveredInvoice`).
- Choosing a sync interval turns `sync` on for a disconnected mailbox
  (`ImapRuns.IntervalKeepsSyncImpliesConnectIff`, `ImapRuns.IntervalOnDisconnected`).
- Setting up a cron job for a user who may not sync leaves an older job running
  (`Scheduler.LastDecisionCounts`).
- The mail promises that a code is valid for five minutes
  (`src/common/email-templates/otpEmailTemplate.ts`, line 39). A wrong try renews it, so it
  can live up to 15 or 25 minutes (`OneTimeCodeLaws.PromiseKeptIff`,
  `OneTimeCodeLaws.MissedCodeOutlivesPromise`). And a login that finds an earlier code mails
  that one again as it is, with what is left of its time and its tries, which may be next to
  nothing or no try at all (`OneTimeCodeUse.LoginMailPromiseIff`,
  `OneTimeCodeUse.ResentCodeExpires`, `OneTimeCodeUse.UsedUpCodeIsMailed`). The model
  follows the code.
- Reset and two-factor switch codes have no limit on tries: they work for their five minutes
  after any number of wrong ones (`OneTimeCodeUse.ToggleCodeWorksIff`,
  `OneTimeCodeUse.ResetCodeWorksIff`).
- MT940: a one-letter mark costs the amount its first digit, a reversal with a funds code
  has no amount at all, a credit with funds code letter D reads as a debit, reversals read
  as what they reverse, entry dates get the fixed year 2020, and of details with several
  lines all but the first are dropped (`Mt940RoundTrip.AmountReadIff`,
  `Mt940RoundTrip.DirectionReadIff`, `Mt940RoundTrip.DetailsReadIff`).
- The matching count exceeds the number of matched rows as soon as a row has two partners
  (`BankMatching.CountsMatchedRowsIff`, `BankMatching.ThreeCountAsSix`).
- Storing a transaction that another source has stored already fails, and leaves the rows
  before it stored; an amount with a third decimal is stored once and fails from then on
  (`TransactionStore.StoreSucceedsIff`, `TransactionStore.FailureStoresPrefix`,
  `TransactionStore.StoringAgainIsNoOp`).
- Sorting months as strings is chronological only while years have the same number of
  digits (`RevenueReport.ChronologicalIff`).

## Model

| member | source | states |
|---|---|---|
| Calendar.MakeDayInvertsParts | src/user-dashboard/payment/webhook.controller.ts:163-168 | every day number splits into a year, month and existing date of that month and is put together again unchanged |
| Calendar.InMonthIff | src/user-dashboard/reports/reports.service.ts:90-91 | a day has this year and month if and only if it lies between the first day of that month and of the next |
| Calendar.KnownDays | src/user-dashboard/payment/webhook.controller.ts:163 | day 0 is 1 January 1970; two later days that fix the leap years |
| Calendar.NextMonthAdvance | src/user-dashboard/payment/webhook.controller.ts:164-165 | one month on is exactly as many days later as the starting month has, month-end overflow included |
| Calendar.NextYearAdvance | src/user-dashboard/payment/webhook.controller.ts:166-167 | one year on is 366 days later exactly when a 29 February lies on the way, else 365 |
| Calendar.AddDaysAdvance | src/user-dashboard/payment/payment.service.ts:101-103 | a trial of n days ends exactly n times 24 hours later |
| BillingService.Backend.BuyPlan | src/user-dashboard/payment/payment.service.ts:50-211 | a purchase is refused without price or with a running plan, else adds a pending history and either starts the trial (or fails on a second plan row) or records the checkout |
| BillingService.Backend.UpgradePlan | src/user-dashboard/payment/payment.service.ts:252-392 | rewrites the latest history's terms, sets its payment back to pending, forgets its session and records the new checkout; plan rows stay |
| BillingService.Backend.CreatePlan | prisma/generated/prisma/internal/class.ts:23 | a plan row is created exactly if neither its user nor its payment status has one |
| BillingService.Backend.HandleCompleted | src/user-dashboard/payment/webhook.controller.ts:88-184 | a completed session marks its invoice paid, or the statuses that refer to it paid and then creates the plan row from the history unless that clashes |
| BillingService.Backend.ActivateFreeTrial | src/jobs/subscription-expiry.cron.ts:90-158 | creates an active trial plan at price 0 for each row in order and switches the mailbox on, up to the first row that fails |
| BillingService.AbortedTrialsStay | src/jobs/subscription-expiry.cron.ts:116-157 | after a failing trial row no later row has any effect |
| BillingService.Backend.EnableSubscriptionFeatures | src/jobs/subscription-expiry.cron.ts:28-53 | switches on the mailboxes of the listed users and nothing else |
| BillingService.Backend.DeactivateExpiredSubscriptions | src/jobs/subscription-expiry.cron.ts:163-208 | ends each listed plan, switches the mailbox off and opens the reminder's checkout session |
| Reminders.PaidReminderIsLost | src/jobs/subscription-expiry.cron.ts:253-294 | the session that the midnight job opens for an ended plan is worth nothing: at any later point of any run its payment makes no status paid and creates or changes no plan row |
| BillingService.Backend.SetImapConfiguration | src/user-dashboard/auto-invoice-imports/manage-connection.service.ts:147-299 | needs an active, unexpired plan and a valid interval id; then connection, status and sync follow the connection test and the form |
| ConnectionRuns.DisconnectLastsIff | src/user-dashboard/auto-invoice-imports/manage-connection.service.ts:316-336 | a mailbox its user disconnects stays disconnected over any run if and only if no step meets the guard of one that connects it: hourly job, administrator, successful configuration, trial that starts |
| ConnectionRuns.HourlyJobReconnects | src/jobs/subscription-expiry.cron.ts:28-47 | for a user with an active, unexpired plan the next hourly job is such a step |
| ConnectionRuns.AdminConnectionLastsIff | src/admin-dashboard/imap-system-monitor/imap-system-monitor.service.ts:274-365 | a mailbox that an administrator connects for a user whose plan has ended stays connected over any run if and only if that user or an administrator does not disconnect it |
| BillingService.Backend.SetSyncInterval | src/user-dashboard/auto-invoice-imports/imap-sync.service.ts:278-355 | with an active, paid plan that allows the interval, stores it and sets sync; otherwise refuses |
| BillingService.Backend.ReadEmailTransactionsSince | src/imap-apis/imap-apis.service.ts:277-373 | reading needs access, and for a paid plan fewer invoices this month than its limit; a failed login switches the mailbox off and reads as no invoices |
| BillingService.Backend.ReadEmailTransactions | src/imap-apis/imap-apis.service.ts:522-533 | a step of a run: reading from the row's creation on, which leaves lastSync as it is |
| BillingService.Backend.RunSyncJob | src/imap-apis/cronConfig.service.ts:89-152 | a step of a run: the cron job moves lastSync to now exactly when invoices were created, and records success and number in the history |
| BillingService.Backend.SyncEmails | src/user-dashboard/auto-invoice-imports/imap-sync.service.ts:17-199 | the manual sync does the same after checking plan, monthly limit (for trials too), connection, sync flag and interval |
| BillingRuns.StepKeepsInv | src/user-dashboard/payment/webhook.controller.ts:134-184 | every step keeps histories, payment statuses, sessions and plan rows consistent, and every delivered session settled |
| BillingRuns.RunKeepsInv | src/user-dashboard/payment/payment.service.ts:284-388 | so does every run, upgrades included |
| BillingRuns.DeliverySettles | src/user-dashboard/payment/webhook.controller.ts:140-184 | after a delivery the user has a plan row, and a status that still refers to the session is paid with the event's subscription and customer |
| BillingRuns.RedeliveryIsNoOp | src/user-dashboard/payment/webhook.controller.ts:134-184 | in every reachable state a subscription event delivered before changes nothing |
| BillingRuns.RedeliveredInvoice | src/user-dashboard/payment/webhook.controller.ts:93-127 | a redelivered invoice payment changes only paidAt, and nothing exactly when no time has passed |
| PlanRuns.StepKeepsPlans | src/jobs/subscription-expiry.cron.ts:181-196 | no step removes a plan row, changes more of it than the active flag, or sets that flag again |
| PlanRuns.RunKeepsPlans | prisma/generated/prisma/internal/class.ts:23 | along every run a plan row keeps owner, quota, price, payment status and dates, and only goes from active to inactive |
| PlanRuns.EndedPlanNeverGrants | src/imap-apis/imap-apis.service.ts:180-236 | a user with an inactive plan row is denied access after every run |
| PlanRuns.PlanIsTrialOrPaid | src/user-dashboard/payment/webhook.controller.ts:140-184 | in runs without upgrades a plan row's payment belongs to its user's history and is paid unless the row started as a trial |
| Purchases.BuyReplies | src/user-dashboard/payment/payment.service.ts:50-76 | in every reachable state a purchase is refused, and changes nothing, if and only if there is no price, the price has no id, or the user has an unexpired plan; otherwise a trial starts if and only if the last price has trial days and the user never had a plan, and the checkout opens if and only if it has none and Stripe answers |
| Purchases.BuyAddsHistory | src/user-dashboard/payment/payment.service.ts:77-99 | each purchase that is not refused adds one history on the first price's terms and period with an open payment of price plus setup fee; an opened checkout is recorded on it |
| Purchases.BuyStartsTrial | src/user-dashboard/payment/payment.service.ts:101-127 | a started trial runs from now for the last price's trial days at the first price's terms without setup fee and connects that user's mailbox |
| Purchases.UpgradeRevises | src/user-dashboard/payment/payment.service.ts:254-388 | an upgrade is refused if and only if there is no price, no price id or no history; otherwise the latest history gets the new terms and period and its payment opens again |
| Purchases.DeliveryCreatesPlan | src/user-dashboard/payment/webhook.controller.ts:149-184 | in every reachable state a delivery creates a plan row if and only if the user has none: on the history's terms and price, for exactly the days of the month if it is monthly and of the year if it is yearly |
| Purchases.DeliveryMarks | src/user-dashboard/payment/webhook.controller.ts:140-147 | it marks paid exactly the payments that refer to the session, with the event's subscription and customer |
| Purchases.NoPlanWithoutHistory | src/user-dashboard/payment/webhook.controller.ts:149-160 | a session whose history or payment status is missing creates no plan |
| Purchases.InvoiceIsPaid | src/user-dashboard/payment/webhook.controller.ts:93-127 | an invoice payment marks that invoice paid now, by that session and intent, and nothing else |
| Purchases.PlansAreAsSold | src/user-dashboard/payment/webhook.controller.ts:162-184 | over any run without upgrades every plan row has the quota and intervals its history sold, and a paid one its price and the length of its period |
| Purchases.TrialJobCreates | src/jobs/subscription-expiry.cron.ts:93-133 | every plan row the hourly job creates is for an unpaid history with trial days of a user without plan, is free and runs for those days |
| Purchases.TrialJobTakes | src/jobs/subscription-expiry.cron.ts:93-143 | for every such history the job can create one, and connects the mailbox |
| Purchases.AccessIff | src/imap-apis/imap-apis.service.ts:180-236 | access is granted if and only if the plan is active and unexpired; as a paying user's if and only if the latest history has no trial days and is paid; the remaining days are the least whole number that covers the rest |
| Purchases.PayingGrantsAccess | src/user-dashboard/payment/webhook.controller.ts:134-184 | paying a first plan without trial days gives a paying user's access for exactly the days of the month or year bought |
| Purchases.TrialGrantsAccess | src/user-dashboard/payment/payment.service.ts:101-127 | a started trial gives access for exactly its days, as a trial |
| PlanRuns.DeliveryPaysIff | src/user-dashboard/payment/webhook.controller.ts:140-184 | with upgrades, a delivery that creates a plan row leaves it paid if and only if the status still refers to that session or was paid |
| PlanRuns.UpgradeThenPayOldCheckout | src/user-dashboard/payment/payment.service.ts:295-304 | buying, upgrading and then paying the first checkout gives an unpaid plan row on the upgraded terms |
| PlanRuns.RemainingDaysBound | src/imap-apis/imap-apis.service.ts:208-217 | in every reachable state granted access shows between 1 and max(366, longest trial on offer) remaining days |
| ImapRuns.StepChangesRow | src/user-dashboard/auto-invoice-imports/manage-connection.service.ts:238-276 | the complete list of changes any step of the system can make to an existing mailbox row |
| ImapRuns.RunKeepsHealthy | src/imap-apis/imap-apis.service.ts:344-351 | in every run connect implies CONNECTED, and sync dates lie between creation and now |
| ImapRuns.StepKeepsSyncImpliesConnect | src/user-dashboard/auto-invoice-imports/manage-connection.service.ts:329-336 | every step but setting an interval keeps sync implying connect |
| ImapRuns.IntervalKeepsSyncImpliesConnectIff | src/user-dashboard/auto-invoice-imports/imap-sync.service.ts:278-355 | setting an interval keeps it if and only if it is refused or the row is connected |
| ImapRuns.IntervalOnDisconnected | src/user-dashboard/auto-invoice-imports/imap-sync.service.ts:349-355 | a reachable state in which it succeeds on a disconnected row and leaves sync on without connect |
| ImapRuns.SinceNeverGoesBack | src/imap-apis/cronConfig.service.ts:114-139 | without resets the date a sync reads from never moves back |
| ImapRuns.ResetKeepsSinceIff | src/user-dashboard/auto-invoice-imports/imap-sync.service.ts:260-263 | a reset leaves that date alone if and only if nothing was synced after the row's creation |
| ImapRuns.MidnightSwitchesOff | src/jobs/subscription-expiry.cron.ts:181-196 | the midnight job leaves every listed user with an inactive plan and a switched-off mailbox |
| ImapRuns.DeactivatedStaysOff | src/jobs/subscription-expiry.cron.ts:28-53 | and the mailbox stays off through every continuation without an administrator's connect |
| Mailboxes.SetImapIff | src/user-dashboard/auto-invoice-imports/manage-connection.service.ts:147-299 | saving a configuration is refused if and only if the user has no active, unexpired plan or names an unknown interval; otherwise connect and status say whether the test succeeded, sync whether it did and the form asks for it |
| Mailboxes.ConnectAndDisconnect | src/admin-dashboard/imap-system-monitor/imap-system-monitor.service.ts:274-365 | a user's disconnection clears connect and sync only; an administrator's connect and disconnect switch the whole row, if it is not so already |
| Mailboxes.IntervalIsSetIff | src/user-dashboard/auto-invoice-imports/imap-sync.service.ts:280-355 | an interval is stored, and sync set, if and only if the active plan's payment is settled and the plan allows it and there is a configuration |
| Mailboxes.HourlyJobConnects | src/jobs/subscription-expiry.cron.ts:28-53 | the hourly job switches on the mailboxes of listed users, who all have an active, unexpired plan, and no others |
| Mailboxes.HourlyJobTakes | src/jobs/subscription-expiry.cron.ts:28-37 | the hourly job may list every user with an active, unexpired plan |
| Mailboxes.MidnightEnds | src/jobs/subscription-expiry.cron.ts:163-196 | the midnight job ends the listed plans, all active and expired, switches their mailboxes off and leaves everybody else alone |
| Mailboxes.MidnightTakes | src/jobs/subscription-expiry.cron.ts:166-171 | the midnight job may list every user whose plan is active and has expired |
| Mailboxes.MidnightOpens | src/jobs/subscription-expiry.cron.ts:199-294 | it opens sessions for the latest histories of users whose notice got a checkout, and no others |
| Mailboxes.ReadMailIff | src/imap-apis/imap-apis.service.ts:277-373 | reading fails if and only if access or, for a paying user of a limited plan, room in the month is missing, or the configured mailbox cannot be read; a failed login reads as nothing and switches off |
| Mailboxes.SyncJobIff | src/imap-apis/cronConfig.service.ts:89-152 | the cron job moves lastSync to now if and only if reading creates an invoice; the history row says whether it failed and how many |
| Mailboxes.SyncNowIff | src/user-dashboard/auto-invoice-imports/imap-sync.service.ts:17-199 | the manual synchronisation does the same if and only if the mailbox is connected and set to synchronise at an interval the active plan allows, with room in the month |
| Mailboxes.ResetForgetsDate | src/user-dashboard/auto-invoice-imports/imap-sync.service.ts:247-263 | after a reset the next synchronisation reads from the row's creation |
| Scheduler.JobNamesDiffer | src/imap-apis/cronConfig.service.ts:76-177 | job names are equal only for the same task: one per user, none the trial check |
| Scheduler.CronConfig.StopCronForUser | src/imap-apis/cronConfig.service.ts:155-166 | stops and removes the user's job if there is one; running jobs stay exactly the registered ones |
| Scheduler.CronConfig.CreateCronForUser | src/imap-apis/cronConfig.service.ts:75-87 | replaces the user's job by a running one at the given time |
| Scheduler.CronConfig.SetupCronForUser | src/imap-apis/cronConfig.service.ts:36-73 | does so if plan, connection, sync and the selected interval allow it, else nothing |
| Scheduler.CronConfig.InitializeAllCronJobs | src/imap-apis/cronConfig.service.ts:22-34 | sets up every user with an active plan in turn |
| Scheduler.CronConfig.SetupTrialExpiryNotificationCron | src/imap-apis/cronConfig.service.ts:176-197 | exactly one trial check runs afterwards, at nine every day |
| Scheduler.CronConfig.OnModuleDestroy | src/imap-apis/imap-apis.service.ts:90-98 | terminates with an empty registry and no job running |
| Scheduler.StartUpRegisters | src/imap-apis/cronConfig.service.ts:17-73 | from an empty registry exactly the users who may sync now are registered, at the time they selected, and the trial check |
| Scheduler.SetupAllGives | src/imap-apis/cronConfig.service.ts:22-34 | for any registry, what each job's entry is after setting up a list of users |
| Scheduler.SelectedTimeIff | src/imap-apis/cronConfig.service.ts:36-74 | a user has a time to be scheduled at if and only if the active plan allows the selected interval, the interval has a time, and the mailbox is connected and set to synchronise |
| Scheduler.LastDecisionCounts | src/imap-apis/cronConfig.service.ts:36-87 | over any sequence of operations a user is scheduled if and only if the last one that decided about them set them up |
| InvoiceImport.Importer.CreateInvoice | src/imap-apis/imap-apis.service.ts:536-597 | inserts a row exactly if its number, generated when empty, is not taken |
| InvoiceImport.Importer.TryPdfAttachments | src/imap-apis/imap-apis.service.ts:406-451 | the first PDF that yields an insertable invoice is used, failures are skipped |
| InvoiceImport.Importer.HandleMessage | src/imap-apis/imap-apis.service.ts:390-499 | skips old and processed messages, else tries the PDFs and then the subject fallback, whose conflict ends the import |
| InvoiceImport.Importer.ReadEmails | src/imap-apis/imap-apis.service.ts:377-511 | table and returned list after all searches, or up to the first error, are those of the specification |
| InvoiceImportLaws.ImportAppends | src/imap-apis/imap-apis.service.ts:377-511 | however an import ends, the table is the old one followed by exactly the returned invoices, with unique numbers |
| InvoiceImportLaws.OneInvoicePerEmail | src/imap-apis/imap-apis.service.ts:398-404 | each new invoice is for an e-mail of the mailbox searched that no earlier row mentions |
| InvoiceImportLaws.CompletedImportSettlesAll | src/imap-apis/imap-apis.service.ts:381-500 | a complete import leaves no message of the mailbox that the loop would do anything with |
| InvoiceImportLaws.CompletedImportInvoices | src/imap-apis/imap-apis.service.ts:398-480 | after it every message that is not too old and has an invoice's subject has an invoice made for that very mail, unless its id is part of the note of a row made for another |
| InvoiceMail.LooksLikeInvoiceIff | src/imap-apis/imap-apis.service.ts:161-164 | a subject looks like an invoice's if and only if invoice, factuur, rechnung, receipt or billing stands somewhere in it, in any mixture of capital and small letters |
| InvoiceMail.CaseDoesNotMatter | src/imap-apis/imap-apis.service.ts:161-164 | subjects that agree up to the case of their letters look alike |
| InvoiceMail.IdsToldApart | src/imap-apis/imap-apis.service.ts:398 | ids that agree, and two of whose three parts agree, agree in the third |
| InvoiceMail.MissingPartsReadUndefined | src/imap-apis/imap-apis.service.ts:398 | a mail without subject has the id of one with the subject undefined |
| InvoiceMail.MailAddsRowIff | src/imap-apis/imap-apis.service.ts:390-480 | a mail adds a row if and only if it is not too old, its id stands in no note, and it has an insertable PDF or an invoice's subject; then one, which names the mail and says which of the two it was |
| InvoiceMail.SubjectAloneAddsRow | src/imap-apis/imap-apis.service.ts:454-480 | a new mail without attachments whose subject holds the word invoice in any case gets its row |
| InvoiceImportLaws.ReimportCreatesNothing | src/imap-apis/imap-apis.service.ts:400-404 | after a complete import, a second one of the same mailbox creates nothing |
| MailSync.SyncMovesSince | src/imap-apis/cronConfig.service.ts:114-139 | the date a mailbox is read from after the cron job is the one MailSync gives |
| MailSync.ServedIff | src/imap-apis/imap-apis.service.ts:398-480 | a completed import leaves a message that is not too old and holds something to import with an invoice made for that very mail if and only if not every lookup for it finds a row made for another, be it of the same sender, subject and date or of another user |
| MailSync.LosesNothingIff | src/imap-apis/imap-apis.service.ts:398-511 | a synchronisation loses no due message, of any mailbox its import is consistent with, if and only if it created nothing, or completed and overlooked none with anything to import; a due mail is lost that has no invoice made for that very mail and is too old afterwards |
| MailSync.LostForGoodIff | src/user-dashboard/auto-invoice-imports/imap-sync.service.ts:247-263 | a message that is too old stays too old through everything later if and only if that is neither a reset nor a reading from the start, or the message is older than the configuration |
| MailSync.ResetMovesSince | src/imap-apis/imap-apis.service.ts:522-533 | the date after a reset, and after a reading on request, is the one MailSync gives |
| MailSync.AbortAfterCreating | src/imap-apis/imap-apis.service.ts:381-388 | one message and a failing second search suffice to abort after an invoice |
| MailSync.TwoMailsOneInvoice | src/imap-apis/imap-apis.service.ts:398-404 | of two mails with the same sender, subject and date and an invoice each, the second is not imported and too old afterwards |
| MailSync.SuffixIsOverlooked | src/imap-apis/imap-apis.service.ts:400-404 | the same for a mail from an address that ends another sender's |
| MailSync.RereadThenSyncLoses | src/imap-apis/imap-apis.service.ts:400-404 | a reading on request that imports the first of two such mails, then a synchronisation that imports a third: the second is lost, its number in no row |
| MailSync.OtherUsersCopyHides | src/imap-apis/imap-apis.service.ts:400-402 | an invoice another user got from a mail of the same sender, subject and date loses this user theirs |
| MailSync.OverlookedIsHidden | src/imap-apis/imap-apis.service.ts:398-404 | a message that a completed import overlooks has afterwards no invoice made for it and its id in another's note |
| MailSync.HiddenForGood | src/imap-apis/imap-apis.service.ts:398-404 | so it stays, whatever synchronisations, resets and readings follow, of any user's mailbox |
| MailSync.NumberAtHitIff | src/imap-apis/imap-apis.service.ts:406-451 | a PDF's number gets into the table with its own mail's row, and stays, if and only if no row has it when the import gets there and no PDF before it can be inserted |
| InvoiceImportLaws.TakenNumberIsDropped | src/imap-apis/imap-apis.service.ts:552-561 | a mail whose one PDF has a number in use gives nothing, or the empty fallback invoice if its subject looks like one |
| MonthlyLimit.MonthBounds | src/imap-apis/imap-apis.service.ts:296-306 | every moment lies between the start of its month and the next; the upper end of the count is one day before the latter |
| MonthlyLimit.CountedIsWithoutLastDay | src/imap-apis/imap-apis.service.ts:308-316 | what is counted is the month's invoices less those of its last day |
| MonthlyLimit.TryIsBillings | src/imap-apis/imap-apis.service.ts:290-325 | given that count, a synchronisation is let through as in the runs: the cron job's is checked for paid plans with a limit, the manual one for every plan with a limit |
| MonthlyLimit.LetThroughIff | src/imap-apis/imap-apis.service.ts:318-323 | a checked synchronisation is let through if and only if the month's invoices, its last day's aside, are fewer than the limit |
| MonthlyLimit.StaysWithinIff | src/user-dashboard/auto-invoice-imports/imap-sync.service.ts:34-63 | over any number of synchronisations a month ends within its limit if and only if each one that is let through finds room for all it creates |
| MonthlyLimit.OneByOneStaysWithin | src/user-dashboard/auto-invoice-imports/imap-sync.service.ts:34-63 | which checked ones that create one invoice at most do until the last day begins |
| MonthlyLimit.PastTheLimit | src/imap-apis/imap-apis.service.ts:290-325 | an import of two with room for one, a trial's with room for none, and any on the last day are let through |
| OneTimeCodes.KeysToldApart | src/auth/auth.service.ts:96-170 | different entries have different Redis keys as long as user ids hold no colon |
| OneTimeCodeUse.RegistrationCodeWorksIff | src/auth/auth.service.ts:77-173 | as long as no step uses its key, a code that was sent verifies if and only if it is that number and less than five minutes have passed, whatever else runs |
| OneTimeCodeUse.LoginCodeWorksIff | src/auth/auth.service.ts:342-467 | in every reachable state, the code a login mails, new or found, logs in the owner of the address if and only if it is that number, its entry has not expired and fewer than five tries were missed |
| OneTimeCodeUse.LoginMailPromiseIff | src/auth/auth.service.ts:342-367 | that code is good for exactly the next five minutes if and only if no live code was found, or one with a try left that expires in exactly five minutes |
| OneTimeCodeUse.ResentCodeExpires | src/auth/auth.service.ts:342-367 | a run in which a code mailed again is refused less than five minutes later without any try |
| OneTimeCodeUse.UsedUpCodeIsMailed | src/auth/auth.service.ts:342-440 | a run in which a code without tries left is mailed and refused at once |
| OneTimeCodeUse.VerifiedTokenWorksIff | src/auth/auth.service.ts:169-239 | a verified address can be registered with its token for exactly ten minutes, unless it got an account by then |
| OneTimeCodeService.Backend.VerifyRegistrationOtp | src/auth/auth.service.ts:135-182 | missing, used-up, wrong and right codes each have their effect: nothing, deletion, one more try and five more minutes, exchange for a ten-minute token |
| OneTimeCodeService.Backend.CompleteRegistration | src/auth/auth.service.ts:191-239 | a live token for that very address creates the account unless the address is taken, and is used up |
| OneTimeCodeService.Backend.LogIn | src/auth/auth.service.ts:295-403 | the right password logs in, or with two factors makes sure a live code exists without renewing it |
| OneTimeCodeService.Backend.VerifyLogin | src/auth/auth.service.ts:413-473 | as for registration with five tries; the right code logs its user in |
| OneTimeCodeUse.ToggleCodeWorksIff | src/auth/2fa.service.ts:59-98 | a code to switch two-factor login works if and only if it is that number and less than five minutes have passed, after any number of wrong tries |
| OneTimeCodeService.Backend.VerifyTwoFA | src/auth/2fa.service.ts:82-115 | the right live code is deleted and flips the switch, anything else changes nothing |
| OneTimeCodeUse.ResetCodeWorksIff | src/auth/forget-password.service.ts:76-158 | so does a password-reset code |
| OneTimeCodeUse.ResetTokenWorksIff | src/auth/forget-password.service.ts:164-233 | its token sets a password for exactly five minutes, and only that of the owner of the address |
| OneTimeCodeService.Backend.VerifyForgetPassCode | src/auth/forget-password.service.ts:132-177 | the right live code of a known address is exchanged for a five-minute token naming its owner |
| OneTimeCodeService.Backend.ChangePassword | src/auth/forget-password.service.ts:199-238 | a live token naming an existing user sets that user's password and is used up |
| OneTimeCodeLaws.StepKeepsInv | src/auth/auth.service.ts:54-61 | every step keeps: entries trace back to distinct unused events, expiry at most createdAt + 300 s per try and one more, tries within the limit |
| OneTimeCodeLaws.RunKeepsInv | src/auth/auth.service.ts:54-61 | and so does every run |
| OneTimeCodeLaws.AcceptedInTime | src/auth/auth.service.ts:150-173 | a code is accepted only for its own purpose, below its limit of misses, and within 300 s per miss and one more: under 900 s or 1500 s in all |
| OneTimeCodeLaws.UsedOnce | src/auth/auth.service.ts:169-239 | no code is accepted twice and no token used twice |
| OneTimeCodeLaws.AcceptedAtMostIssued | src/auth/2fa.service.ts:65-98 | accepted codes and the one in Redis never outnumber the issued ones |
| OneTimeCodeLaws.AccountsAreVerified | src/auth/auth.service.ts:195-239 | each registered account traces back to an accepted code issued to the same address less than 1500 s before |
| OneTimeCodeLaws.PasswordsAreVerified | src/auth/forget-password.service.ts:138-233 | each new password traces back to an accepted code issued to an address of that user less than 600 s before |
| OneTimeCodeLaws.TracesAreDistinct | src/auth/forget-password.service.ts:153-233 | different accounts or passwords trace back to different acceptances and codes |
| OneTimeCodeLaws.EveryChangeExplained | src/auth/auth.service.ts:218-239 | over any run each new account and changed password has its event |
| OneTimeCodeLaws.TwoFactorIsParity | src/auth/2fa.service.ts:98-108 | two-factor login is its initial value flipped once per accepted code |
| OneTimeCodeLaws.LoginCodeLogsInOwner | src/auth/auth.service.ts:442-473 | in every reachable state the right login code logs in the owner of the address |
| OneTimeCodeLaws.LoginCodeNeedsPassword | src/auth/auth.service.ts:317-356 | a login code is issued only after the right password of a two-factor account, and never over a live one |
| Passwords.LogInIff | src/auth/auth.service.ts:317-375 | a login succeeds at once if and only if the address is that user's, who is not deleted, has this password and no two-factor login; a code is mailed if and only if the same holds with two-factor login |
| Passwords.CodeLogsInUser | src/auth/auth.service.ts:448-473 | a code lets in only a user who exists and has an address |
| Passwords.NewAccountLogsIn | src/auth/auth.service.ts:213-239 | a new account is let in at once with its password and no other |
| Passwords.EveryLoginGavePassword | src/auth/auth.service.ts:317-473 | over any run whoever gets in gave that user's password: in this step without two-factor login, or in an earlier one for the code that is tried now |
| Passwords.LoginTakesLastPassword | src/auth/forget-password.service.ts:204-233 | over any run a login is not refused if and only if the user is not deleted and it has the password given last, at registration or with the user's reset token |
| OneTimeCodeLaws.PromiseKeptIff | src/auth/auth.service.ts:158-161 | a stored code expires within five minutes of its issue if and only if it was not missed since its issue |
| OneTimeCodeLaws.MissedCodeOutlivesPromise | src/auth/auth.service.ts:150-173 | for all delays below five minutes, a code missed twice is still accepted after their sum |
| JsText.ParseDecimal | src/bank/parsers/mt940.parser.ts:116-122 | parseFloat reads digits.digits exactly, and nothing exactly if there is no digit |
| JsText.AmountShifts | src/bank/parsers/mt940.parser.ts:116-122 | an amount without fraction is its number, and moving the comma behind one more digit multiplies it by ten |
| JsText.TrimIgnoresTrailing | src/bank/parsers/mt940.parser.ts:44 | trim does not see a trailing white-space character |
| Mt940.ReadAmount | src/bank/parsers/mt940.parser.ts:144-149 | the amount is the longest run of digits and commas, and reading stops right after it |
| Mt940.ReadTransactionLine | src/bank/parsers/mt940.parser.ts:126-162 | the position-by-position reader computes the specified transaction |
| Mt940.ParseMT940 | src/bank/parsers/mt940.parser.ts:35-86 | the loop with its open transaction computes transactions and metadata of the lines |
| Mt940Laws.OneTransactionPerEntry | src/bank/parsers/mt940.parser.ts:72-77 | there are as many transactions as :61: lines |
| Mt940Laws.Segmentation | src/bank/parsers/mt940.parser.ts:48-86 | the k-th transaction is the k-th :61: line with the details between it and the next |
| Mt940Laws.DetailsBetweenIsLast | src/bank/parsers/mt940.parser.ts:79-81 | those details are the last :86: line of the segment, absent exactly if there is none |
| Mt940Laws.LastLineWins | src/bank/parsers/mt940.parser.ts:50-70 | every metadata field is what stands behind the tag of its last line, either of two tags for a balance |
| Mt940Laws.FieldAbsentIff | src/bank/parsers/mt940.parser.ts:50-70 | a metadata field is absent if and only if no line begins with its tag: `:20:`, `:25:`, `:28C:`, `:60F:` or `:60M:`, `:62F:` or `:62M:` |
| Mt940Laws.KindByTag | src/bank/parsers/mt940.parser.ts:48-81 | the kind of every line follows from its first characters |
| Mt940Laws.AppendedLines | src/bank/parsers/mt940.parser.ts:72-86 | lines appended append their transactions, up to details given to the last earlier one |
| Mt940Laws.AppendedFiles | src/bank/parsers/mt940.parser.ts:44-86 | appended files append their transactions if and only if no stray :86: line changes the last one |
| Mt940Laws.CrlfDoesNotMatter | src/bank/parsers/mt940.parser.ts:44 | CRLF line ends parse like LF |
| Mt940Laws.BlankLinesDoNotMatter | src/bank/parsers/mt940.parser.ts:44 | blank lines make no difference |
| Mt940RoundTrip.ParseDateIdempotent | src/bank/parsers/mt940.parser.ts:164-179 | parseDate leaves its own results alone |
| Mt940RoundTrip.ParseDateInjective | src/bank/parsers/mt940.parser.ts:164-179 | parseDate tells dates of one length apart |
| Mt940RoundTrip.EntryRoundTrip | src/bank/parsers/mt940.parser.ts:126-162 | a printed field 61 whose mark is a reversal or has a funds code, but not both, is read back exactly, with the letter's side except for a credit with funds code letter D |
| Mt940RoundTrip.EntriesToldApart | src/bank/parsers/mt940.parser.ts:126-162 | printed fields that read alike agree on dates, direction, amount, code and reference |
| Mt940RoundTrip.AmountReadIff | src/bank/parsers/mt940.parser.ts:141-158 | for every mark C, D, RC, RD with or without funds code: the amount is right if and only if the mark has two letters, or one and the amount starts with a zero that is not its only digit |
| Mt940RoundTrip.FiveReadAsZero | src/bank/parsers/mt940.parser.ts:141-158 | `230930C5,00NTRFNONREF` is read as zero |
| Mt940RoundTrip.DirectionReadIff | src/bank/parsers/mt940.parser.ts:157 | for every mark: the direction is the letter's if and only if it is not a credit with funds code letter D, and what the entry does to the account if and only if moreover it is no reversal |
| Mt940RoundTrip.EntryDateIff | src/bank/parsers/mt940.parser.ts:133-138 | a line has an entry date if and only if it goes on behind four digits after the value date |
| Mt940RoundTrip.BalanceRoundTrip | src/bank/parsers/mt940.parser.ts:110-124 | printed fields 60a and 62a are read back exactly |
| Mt940RoundTrip.FileRoundTrip | src/bank/parsers/mt940.parser.ts:35-86 | a whole printed file is read back, whether its balances are final or intermediate: header, balances and every entry with the first line of its details |
| Mt940RoundTrip.DetailsReadIff | src/bank/parsers/mt940.parser.ts:79-81 | the details are read back as printed if and only if each has one line |
| BankMatching.Transactions.MatchTransactions | src/user-dashboard/bank-transaction/transaction.service.ts:131-162 | exactly the listed rows with a partner become matched, and the count is twice the number of compatible pairs |
| BankMatching.Handshake | src/user-dashboard/bank-transaction/transaction.service.ts:140-160 | the count is the sum of all rows' numbers of partners |
| BankMatching.HasPartnerIff | src/user-dashboard/bank-transaction/transaction.service.ts:145-152 | a row is matched exactly if its number of partners is positive |
| BankMatching.CountsMatchedRowsIff | src/user-dashboard/bank-transaction/transaction.service.ts:133-162 | the rows of the table that become matched are those with a partner; the count is at least their number, and equal if and only if no row has two partners |
| BankMatching.ThreeCountAsSix | src/user-dashboard/bank-transaction/transaction.service.ts:140-160 | three equal rows are counted as six |
| BankMatching.SecondRunFindsNothing | src/user-dashboard/bank-transaction/transaction.service.ts:133-162 | an immediate second run counts 0 and marks nothing, in any order of its query |
| BankMatching.OrderDoesNotMatter | src/user-dashboard/bank-transaction/transaction.service.ts:133-136 | any two orders in which the query may list the rows give the same count and mark the same rows |
| BankMatching.MatchedIff | src/user-dashboard/bank-transaction/transaction.service.ts:133-160 | after a run a row is matched if and only if it was, or another unmatched row shows the same amount in the same currency at most an hour away |
| BankMatching.CountIsPairs | src/user-dashboard/bank-transaction/transaction.service.ts:140-160 | half the count is the number of such pairs |
| InvoiceMatching.MatchRow | src/imap-apis/imap-apis.service.ts:605-616 | one Tink row against all e-mail rows: statuses and the link to the last compatible one |
| InvoiceMatching.MatchTransactions | src/imap-apis/imap-apis.service.ts:600-621 | a row is matched if and only if it was or has a counterpart; Tink rows link the last compatible e-mail row's invoice; all rows are listed, latest first |
| InvoiceMatching.SortIsStable | src/imap-apis/imap-apis.service.ts:618-620 | the list is a permutation, latest first, rows of one date in the given order |
| InvoiceMatching.StableOrderIsUnique | src/imap-apis/imap-apis.service.ts:618-620 | no other list is |
| InvoiceMatching.OrderDoesNotMatter | src/imap-apis/imap-apis.service.ts:604-617 | which rows are matched does not depend on the order of the lists |
| InvoiceMatching.CounterpartIff | src/imap-apis/imap-apis.service.ts:605-616 | rows of the two lists are counterparts if and only if they are in one currency, less than one unit and at most two days apart |
| InvoiceMatching.LinkedToLast | src/imap-apis/imap-apis.service.ts:605-616 | a Tink row is linked as its last such e-mail row, or as before if it has none |
| TransactionStore.Transactions.StoreTransactions | src/user-dashboard/bank-transaction/transaction.service.ts:22-63 | an empty batch is refused; otherwise table and outcome are those of storing row by row, and keys stay unique |
| TransactionStore.Transactions.StoreMyTransaction | src/bank/tink.service.ts:104-151 | unknown users are refused; otherwise the token is set and the reported count is the number of distinct new keys |
| TransactionStore.StoreSucceedsIff | src/user-dashboard/bank-transaction/transaction.service.ts:28-52 | storing succeeds if and only if no row has the key of another with a different source or with an amount its column rounds |
| TransactionStore.OtherSourceFails | src/user-dashboard/bank-transaction/transaction.service.ts:29-52 | a batch of three with one such row stores the first and loses the last |
| TransactionStore.StoreUnitesKeys | src/user-dashboard/bank-transaction/transaction.service.ts:28-52 | after success the keys are the old ones and those of the batch |
| TransactionStore.FailureStoresPrefix | src/user-dashboard/bank-transaction/transaction.service.ts:54-63 | after a failure exactly the rows before the clashing one are stored |
| TransactionStore.StoringAgainIsNoOp | src/user-dashboard/bank-transaction/transaction.service.ts:29-38 | the same batch again changes nothing, and succeeds again if and only if it did and no amount has a third decimal |
| TransactionStore.ThirdDecimalFailsTwice | src/user-dashboard/bank-transaction/transaction.service.ts:29-38 | an amount of 2.505 is stored once and fails the second time |
| TransactionStore.InsertCounts | src/bank/tink.service.ts:131-144 | the bulk insert unites the keys, keeps them unique and counts the distinct new ones |
| TransactionStore.InsertingAgainAddsNone | src/bank/tink.service.ts:131-144 | the same bulk insert again counts 0 |
| TransactionStore.StoreRefinesInsert | src/user-dashboard/bank-transaction/transaction.service.ts:28-52 | where the row-by-row store succeeds it gives the table of the bulk insert |
| TransactionStore.CentsAreNearest | src/user-dashboard/bank-transaction/transaction.service.ts:39-43 | the stored amount is the nearest cent, a tie the larger in size, alike for debits and credits |
| TransactionStore.ExactIff | src/user-dashboard/bank-transaction/transaction.service.ts:29-36 | the lookup can find what is stored if and only if the amount has no third decimal |
| TransactionStore.StoredRowsAreInputs | src/user-dashboard/bank-transaction/transaction.service.ts:39-51 | every row added is that of an input, column by column; a missing or empty source is Unknown |
| TransactionStore.InsertedRowsAreInputs | src/bank/tink.service.ts:131-144 | the same for the bulk insert, whose source is Tink Bank |
| Grouping.GroupConserves | src/user-dashboard/reports/reports.service.ts:89-106 | the entries' totals add up to all rows |
| Grouping.GroupIsPerKey | src/user-dashboard/reports/reports.service.ts:89-106 | one entry per occurring key, with the sum of that key's rows |
| Grouping.OrderDoesNotMatter | src/user-dashboard/reports/reports.service.ts:108-128 | the same rows in any order give the same entries |
| Reports.MonthlySummary | src/user-dashboard/reports/reports.service.ts:87-106 | the find-or-push loop groups the rows by year and month |
| Reports.ExpenseSummary | src/user-dashboard/reports/reports.service.ts:108-128 | the same for receipts and mileage together |
| Reports.UserActivity | src/admin-dashboard/reports-and-analytics/reports-and-analytics.service.ts:28-49 | the same for users, each counting one |
| Reports.MonthYearToldApart | src/user-dashboard/reports/reports.service.ts:90-92 | bucket keys are equal if and only if year and month are |
| Reports.MonthYearIff | src/user-dashboard/reports/reports.service.ts:90-92 | a row's bucket is named after year and month if and only if it lies between the first moment of that month and of the next |
| Reports.KnownMonth | src/user-dashboard/reports/reports.service.ts:90-92 | all of January 2026 is in 2026-1 |
| Reports.MonthlySummaryMeans | src/user-dashboard/reports/reports.service.ts:87-128 | one bucket per month of the calendar with rows between its first moment and the next month's, holding their sum; the buckets add up to everything |
| Reports.ActivityCounts | src/admin-dashboard/reports-and-analytics/reports-and-analytics.service.ts:28-49 | a month's activity is the number of users created in it |
| RevenueReport.RevenueGrowth | src/admin-dashboard/reports-and-analytics/reports-and-analytics.service.ts:73-95 | the list is the sorted grouping by padded month |
| RevenueReport.SortOrders | src/admin-dashboard/reports-and-analytics/reports-and-analytics.service.ts:90-91 | sorting keeps the entries and puts their texts in ascending order |
| RevenueReport.RevenueListed | src/admin-dashboard/reports-and-analytics/reports-and-analytics.service.ts:73-95 | one entry per month with revenue, with that month's sum |
| RevenueReport.RevenueOfMonth | src/admin-dashboard/reports-and-analytics/reports-and-analytics.service.ts:73-95 | the list has an entry for a calendar month if and only if a row lies in it, with the sum of the month's rows |
| RevenueReport.KnownSortableMonth | src/admin-dashboard/reports-and-analytics/reports-and-analytics.service.ts:76-79 | all of January 2026 is in 2026-01 |
| RevenueReport.RevenueInOrder | src/admin-dashboard/reports-and-analytics/reports-and-analytics.service.ts:90-95 | entries are in chronological order while all years have equally many digits |
| RevenueReport.ChronologicalIff | src/admin-dashboard/reports-and-analytics/reports-and-analytics.service.ts:76-91 | the order of the texts is that of the months if and only if the first and last year have equally many digits |
| PlanShares.DashboardGraph | src/admin-dashboard/subscriptions/subscriptions.service.ts:28-58 | subscribers and revenue by plan, and each plan's share |
| PlanShares.CountSubscribers | src/admin-dashboard/subscriptions/subscriptions.service.ts:35-43 | the counting callback groups the paid rows by plan |
| PlanShares.SumRevenue | src/admin-dashboard/subscriptions/subscriptions.service.ts:50-58 | so does the revenue callback |
| PlanShares.ShareIsNearest | src/admin-dashboard/subscriptions/subscriptions.service.ts:46 | a share is the nearest hundredth of a per cent, the larger of two |
| PlanShares.DashboardConserves | src/admin-dashboard/subscriptions/subscriptions.service.ts:28-58 | subscribers add up to the paid rows, revenue to its total |
| PlanShares.SharesAddUp | src/admin-dashboard/subscriptions/subscriptions.service.ts:44-47 | the shares of k plans add up to 100 per cent within k/2 hundredths |

## Left out

- Interleaving inside a handler: each handler is one atomic step; its own failure paths are modelled, a crash in the middle is not.
- The plan catalogue and Stripe price objects: a step is given the prices offered; writing a new Stripe price id back to the catalogue is not modelled.
- Local time and daylight saving: dates are computed in UTC, while `setMonth`, `setDate` and `getMonth` use the server's time zone.
- Floating-point rounding: money is exact, in reals or integer cents. Only TransactionStore rounds, to the two decimals of its column, and does not model amounts too long for it.
- Payment failures, activity logs, mails and notifications: nothing modelled depends on them; no code sets a payment status to failed.
- The number of invoices a user has this month is an argument of a synchronisation step in the runs; MonthlyLimit computes it from the rows' creation times, without rows a user deletes.
- BillingService.Backend.SyncEmails: the history row's count of invoices without attachment and its error message are not modelled.
- A null `automatic_Sync` in the connection form, and e-mail notification flags.
- BillingService.Backend.ReadEmailTransactionsSince: the number of invoices created is an input there; how it comes about is InvoiceImport.
- InvoiceImportLaws.ReimportCreatesNothing: assumes that generated invoice numbers collide neither with each other nor with stored or extracted ones; the code draws them from the clock and a random generator.
- Conversion of extracted amounts and dates (`toNumber`, `parseEuropeanDate`): only field values of the invoice depend on it.
- OneTimeCodes: password hashes are compared as passwords; the administrator's form that renames an e-mail address, password changes while logged in and account deletion are not steps.
- Job functions that throw and invalid cron expressions: every expression in the interval table is taken as valid.
- InvoiceMatching.MatchTransactions: links are stated only for lists that share no row object; the code reads a link it may just have written otherwise.
- BillingService.Backend.SetImapConfiguration: that a saved configuration also sets up the cron job is Scheduler's, not a step of these runs.
- MailSync.HiddenForGood: users who delete or rewrite invoices by hand are not among the steps.
- MailSync.LosesNothingIff: mail that arrives while an import is under way; a synchronisation is one moment.
- Dates that do not parse: matching takes every row to have a date.
- Object keys that are array indices or names of inherited properties: plan names are ordinary strings, and the order of the plan list is that of first occurrence.
- The CAMT.053 parser, the older webhook controller, CRUD services, pagination and permission lookups: only easy members.
