# Alert broadcasting: a Dafny model

This project models the alert-broadcasting system of a newsroom app. Staff send text or voice alerts to the phone numbers of TV markets. The model covers:

- **Alert fan-out** (`Dispatch`). The recipient group picks the markets. An alert log is written. Each market's primary phone, or else its first phone, gets one delivery record. A send that bounces or throws raises that phone's failure count.
- **The provider's status callback** (`Webhook`). It advances the latest record for a number that is still "sent".
- **The alert log** (`AlertLogRoutes`): the listing, its date groups and one alert's detail.
- **The domain rules** of the app:
  - `AlertRules`: SMS segments, length warnings and send gating;
  - `PhoneRules`: validation, reliability bands and clean-up of typed numbers;
  - `MarketRules`: air-time parsing and the broadcast lists.
- **The market CSV**:
  - `CsvLine`: the quote-aware line splitter and writer;
  - `CsvParser`: the row parser;
  - `CsvFile`: the file parser, with merging by market number.
- **Importing parsed markets** (`CsvImport`), shared by the route and the script.
- **The market routes** (`MarketRoutes`): list, get, set primary, update with phones, delete a phone.
- **The two rank-update scripts**: `RankCsv`, `NielsenRanks` and `UstvdbRanks`.
- **The air-time migration** (`MigrateTimes`) and **the database seed** (`Seed`).
- **The app's stores**: `MarketStore` for the filters and `ThemeStore` for the theme mode and colour scheme.
- **The market edit screen** (`MarketEdit`) and **the voice recorder hook** (`VoiceRecorder`).

The database (`Tables`) is a class whose tables are sequences of rows in storage order. One counter supplies the identifiers. Every route is written twice:

- a function from the old tables to the new tables and the reply;
- a method that performs the same writes on the database, proved to produce what the function states.

Stateful client code is modelled as classes with the source's own fields: the zustand stores and the React hook's state variables. Every outcome of an outside service is a parameter:

- the SMS provider;
- the phone-number library;
- the clock (`now`);
- the fuzzy search;
- the audio device's results;
- storage reads and writes;
- the DMA snapshot and the Nielsen table.

`Common` holds the small part of JavaScript's string and number library that the code relies on. `Sorting` is a stable insertion sort by a total preorder. It stands for every `orderBy` and `Array.prototype.sort`.

## Model

| member | source | states |
|---|---|---|
| AlertRules.CalculateSmsSegments | src/domain/alert.ts:37-40 | 0 exactly for the empty message; otherwise the fewest 160-character segments that hold the message |
| AlertRules.SegmentsAgainstLength | src/domain/alert.ts:37-40 | at most one segment iff at most 160 characters, at most two iff at most 320, exactly two iff 161..320 |
| AlertRules.SegmentBoundaries | src/domain/alert.test.ts:21-45 | 160 characters take 1 segment, 161 take 2, 320 take 2, 321 take 3 |
| AlertRules.ValidLengthIsOneOrTwoSegments | src/domain/alert.ts:47-49 | a message has a valid SMS length iff it takes one or two segments |
| AlertRules.SmsLengthWarningBands | src/domain/alert.ts:57-66 | no warning iff at most 160 characters; the two-segment warning for 161..320; the truncation warning naming 320 beyond |
| AlertRules.EligibleRecipients | src/domain/alert.ts:74-79 | "all" takes every market, a null list included; any other group takes a market iff the market's list is the group's list |
| AlertRules.GroupMetaLabelsDistinct | src/domain/alert.ts:86-111 | the three groups have three different labels, so a label identifies its group |
| AlertRules.ValidateAlertOrder | src/domain/alert.ts:120-144 | valid iff there is no error iff a group is chosen, the content is not blank and (voice, or at most 320 characters); the error is the first failing check's, group before content before length, with the content message depending on the alert type |
| AlertRules.CanSendAlertExactly | src/domain/alert.ts:154-163 | an alert can be sent iff nothing is in flight and every validation check passes |
| MarketRules.ParseGroupId | shared/contracts.ts:179 | only "all", "3pm" and "6pm" are read as groups, each as the group whose identifier it is |
| MarketRules.ApplyPeriodClock | src/domain/market.ts:39-44 | with an AM or PM period (any case) the hour is put in 24-hour form: PM adds 12 except at 12, 12 AM is 0 |
| MarketRules.ParseAirTimeClock | src/domain/market.ts:33-50 | "hh:mm PERIOD", possibly followed by further words, reads as the 24-hour hour and the minutes |
| MarketRules.ParseAirTimeStructured | src/domain/market.ts:35 | surrounding whitespace does not change what "hh:mm PERIOD" reads as |
| MarketRules.ParseAirTimeSeesTrim | src/domain/market.ts:35 | two air times with the same trimmed text read the same |
| MarketRules.ParseAirTimeNoMinutes | src/domain/market.ts:37 | without ":mm" the minutes default to 0, so "7 PM" reads as 19:00 |
| MarketRules.ParseAirTimeNoDigits | src/domain/market.ts:39-46 | text with no digit reads as a NaN hour, never as null |
| MarketRules.FormatAirTime | src/domain/market.ts:127-129 | the result starts with the air time, ends with the zone and has one space between them, an empty air time included |
| MarketRules.FormatAirTimeParsesBack | src/domain/market.ts:127-129 | appending " ZONE" to "hh:mm PERIOD" does not change what the air time reads as |
| MarketRules.BroadcastListMembership | src/domain/market.ts:137-143 | "all" includes every market; a list includes a market iff the market is on that list, so a market on no list is only in "all" |
| MarketRules.BroadcastTimeLabel | src/domain/market.ts:150-159 | "Unscheduled" exactly for a market on no list; "3:30 PM Feed" and "6:00 PM Feed" for the two lists |
| AlertLogRoutes.FormatLogRoundTrip | backend/src/routes/alertLog.ts:57-67 | the stored log is recovered from its formatted view, so the view loses no field |
| AlertLogRoutes.FormatLogInjective | backend/src/routes/alertLog.ts:57-67 | two logs have the same view iff they are the same log |
| AlertLogRoutes.FormatLogs | backend/src/routes/alertLog.ts:57-82 | one view per stored log, in the same order, each that log's formatting |
| AlertLogRoutes.NewestFirstOrdered | backend/src/routes/alertLog.ts:18-22 | the listing holds the stored logs, each as often as stored, ordered by creation time, newest first |
| AlertLogRoutes.GroupByDate | backend/src/routes/alertLog.ts:25-54 | a group exists exactly for each date key of some log; each group is those logs with that key in listing order; the key order lists each group once, in order of first appearance in the listing |
| AlertLogRoutes.GroupsPartition | backend/src/routes/alertLog.ts:25-54 | each log lies in the group of its own date key and in no other, and each group is a subsequence of the listing |
| AlertLogRoutes.ListAlertLogs | backend/src/routes/alertLog.ts:16-87 | the response holds the formatted listing, newest first, and the formatted groups of that listing, one per date key, with the keys listed once each in order of first appearance, as the response object enumerates them |
| AlertLogRoutes.StatsSum | backend/src/routes/alertLog.ts:118-123 | the four per-status counts add up to the number of records |
| AlertLogRoutes.FindLog | backend/src/routes/alertLog.ts:102-104 | a log is found iff one with that id is stored, and the log found has that id |
| AlertLogRoutes.GetAlertLog | backend/src/routes/alertLog.ts:98-151 | 404 "Alert log not found" iff no log has the id; otherwise the formatted view of a stored log with that id, exactly that alert's records ordered by market name, and the counts of those records |
| AlertLogRoutes.DeliveriesOfOrdered | backend/src/routes/alertLog.ts:110-115 | the records returned are exactly that alert's, each as often as stored, ordered by market name |
| AlertLogRoutes.GetAlertLogDeliveries | backend/src/routes/alertLog.ts:106-123 | a known alert's detail lists that alert's records, and its four counts add up to their number |
| Dispatch.SentBy | backend/src/routes/alert.ts:30 | the sender is the user's non-empty e-mail when there is one, otherwise the user's non-empty name, otherwise null; without a user it is null, and it is never an empty string |
| Dispatch.SelectMarketsExactly | backend/src/routes/alert.ts:33-50 | a group id is refused iff it is not "all", "3pm" or "6pm"; "all" takes every market, and a list exactly its own markets in table order |
| Dispatch.ChoosePhone | backend/src/routes/alert.ts:68-69 | a phone is chosen iff the market has one, and it is one of the market's phones |
| Dispatch.ChoosePhoneIsPrimaryOrFirst | backend/src/routes/alert.ts:68 | the chosen phone is the first primary one, or the first phone when none is primary |
| Dispatch.MapProviderStatusCases | backend/src/routes/alert.ts:93-101 | "failed" and "undelivered" bounce, with the provider's message or "Delivery failed"; "delivered" is delivered; any other status is sent; only a bounce has a reason |
| Dispatch.AttemptSendCases | backend/src/routes/alert.ts:72-155 | a number the validator rejects bounces with its reason and records no failure, whatever the provider would do; a thrown send fails with a non-empty reason and records a failure; an answer is mapped by the status mapping |
| Dispatch.FailureRecordedExactly | backend/src/routes/alert.ts:118-152 | a failure is recorded against the phone iff the record failed, or the provider reported a bounce |
| Dispatch.TextDeliveriesShape | backend/src/routes/alert.ts:67-156 | exactly one record per market with a phone, in market order; the k-th gets the k-th fresh id, the chosen phone and that phone's outcome |
| Dispatch.ApplyFailuresCounts | backend/src/routes/alert.ts:119-152 | each phone's failure count grows by exactly the number of failures recorded against it (by 1 per failure) and its failure time is set when it failed; nothing else about any phone changes |
| Dispatch.RouteSegmentsMatchDomain | backend/src/routes/alert.ts:64 | the route's segment count is the domain layer's, the empty message included |
| Dispatch.FanOutText | backend/src/routes/alert.ts:67-159 | the loop appends exactly the text records and applies exactly the recorded failures; one market's failure does not stop the rest |
| Dispatch.SendTextAlert | backend/src/routes/alert.ts:23-167 | an invalid group gets 400 "Invalid recipient group" and writes nothing; otherwise one alert log whose recipient count is the number of selected markets, the text records, the failure counts, and a reply with that count and ceil(length/160) segments; markets and edit logs are untouched |
| Dispatch.VoiceDeliveriesShape | backend/src/routes/alert.ts:224-238 | exactly one "sent" record per market with a phone, in market order, sent to the chosen phone |
| Dispatch.FanOutVoice | backend/src/routes/alert.ts:224-240 | the loop appends exactly the voice records |
| Dispatch.SendVoiceAlert | backend/src/routes/alert.ts:181-247 | an invalid group gets 400 and writes nothing; otherwise one voice alert log and the voice records; phones, markets and edit logs are untouched |
| Webhook.LatestPending | backend/src/routes/twilioWebhook.ts:38-49 | no record is matched iff none is still "sent" for the number; otherwise the matched one is pending, has the greatest send time of the pending ones, and, as the model breaks ties, is the first of those with that time |
| Webhook.AdvanceCases | backend/src/routes/twilioWebhook.ts:56-93 | "delivered" delivers now; "failed" and "undelivered" bounce with a non-empty reason; "sent" and any other status leave the record as it was; only status, delivery time and reason ever change |
| Webhook.FailureReasonFallback | backend/src/routes/twilioWebhook.ts:69 | the reason is the provider's error message when there is one, else "Twilio error: " with the code, or "Unknown" without a code |
| Webhook.FindPhoneFor | backend/src/routes/twilioWebhook.ts:71-76 | a phone is found iff one of the record's market has exactly the callback's number, and it is the first such phone |
| Webhook.HandleStatusCallback | backend/src/routes/twilioWebhook.ts:17-113 | the reply is always "OK"; the delivery and phone tables become their callback images; the markets, logs and counter are untouched |
| Webhook.CallbackTouchesOnlyMatch | backend/src/routes/twilioWebhook.ts:38-103 | at most one record changes, and a record not still "sent" for the number (a terminal one in particular) is never modified |
| Webhook.CallbackForwardOnly | backend/src/routes/twilioWebhook.ts:40-41 | no record's status moves back to "sent" from a terminal status |
| Webhook.NonFinalCallbackIsNoOp | backend/src/routes/twilioWebhook.ts:57-92 | a callback reporting "sent" or an unrecognised status changes neither table |
| Webhook.CallbackFailureCount | backend/src/routes/twilioWebhook.ts:67-88 | the phones change only on a matched failure, and then only one phone changes: one of the record's market with the callback's number, which gains exactly one failure; conversely, on a matched failure the first phone of that market with that number gains it |
| Webhook.UnmatchedCallbackIsNoOp | backend/src/routes/twilioWebhook.ts:51-54 | with no pending record for the number, neither table changes |
| Tables.SetPrimary | backend/src/routes/market.ts:78-87 | only the primary flags change: phones of other markets keep theirs, and the rows keep their order |
| Tables.SetPrimaryExactlyOne | backend/src/routes/market.ts:78-87 | with unique ids, the chosen phone of the market becomes its only primary phone, and phones of other markets keep their flag |
| Tables.FirstPrimary | backend/src/routes/market.ts:75 | the index of the first primary phone, or none exactly when no phone is primary |
| Tables.PhonesOf | backend/src/routes/alert.ts:36 | exactly the market's phones, in table order |
| Tables.WithPhones | backend/src/routes/alert.ts:35-37 | every market once, in table order, each with exactly its own phones |
| Tables.BumpPhone | backend/src/routes/alert.ts:119-125 | the phone with that id gains one failure and the failure time, and every other row stays |
| PhoneRules.ValidateAndFormatPhone | src/domain/phone.ts:31-64 | valid iff a formatted number is present iff the library parses the number and calls it valid; a valid number is its E.164 form with no error; an invalid one always carries a non-empty error, "Invalid phone number format" when it parsed |
| PhoneRules.ReliabilityBands | src/domain/phone.ts:92-136 | "good" iff no failure, "bad" iff the phone is flagged iff at least 3 failures iff it is not a primary candidate; the "bad" message counts the consecutive failures |
| PhoneRules.ReliabilityMessages | src/domain/phone.ts:106-120 | "Reliable" for 0, "1 recent failure" (singular) for 1, "2 recent failures" for 2 |
| PhoneRules.CleanPhoneInput | src/domain/phone.ts:143-152 | the cleaned number has no leading or trailing whitespace and is never longer than the input |
| PhoneRules.CleanPhoneInputWithoutLetters | src/domain/phone.ts:143-152 | a number written without letters, such as "(212) 555-1234", is only trimmed |
| PhoneRules.CleanPhoneInputDropsX | src/domain/phone.ts:146 | a trailing "x&lt;digits&gt;" in either case, with the whitespace before it, is removed |
| PhoneRules.CleanPhoneInputDropsExt | src/domain/phone.ts:147 | a trailing "ext &lt;digits&gt;" or "ext. &lt;digits&gt;" in any case, with the whitespace around it, is removed |
| PhoneRules.RemoveUnblockNotesNoLetters | src/domain/phone.ts:148 | the "(to unblock …)" removal leaves text without letters as it is |
| PhoneRules.UnblockNoteRemoved | src/domain/phone.ts:148 | a "(to unblock" opener in any case, up to the first ")" on the same line, is removed entirely |
| PhoneRules.CopiedPrefix | src/domain/phone.ts:148 | no note can open inside a letter-free prefix followed by a non-letter, so that prefix is kept as it is |
| PhoneRules.CleanPhoneInputDropsUnblockNote | src/domain/phone.ts:143-152 | a trailing "(to unblock …)" note, such as in "(212) 555-1234 (to unblock 67)", is removed from a letter-free number, leaving the trimmed number |
| PhoneRules.ValidatePhoneList | src/domain/phone.ts:160-173 | one entry per input, in order; entry i has index i, the raw input and the validation of the cleaned input; an empty list gives an empty list |
| CsvLine.ParseLine | backend/src/lib/csvParser.ts:295-326 | the one-pass splitter returns exactly the fields of the line: commas inside quotes do not split, a doubled quote inside quotes is one quote, and (for the backend) every field is trimmed |
| CsvLine.FieldsTrimmed | backend/src/lib/csvParser.ts:295-326 | the backend's trimming splitter gives the scripts' untrimmed fields, each trimmed |
| CsvLine.EncodeField | backend/scripts/update-csv-ranks.mjs:285-293 | a value holding a quote, a comma or a newline is written inside quotes; any other value is written as it is |
| CsvLine.CsvLineRoundTrip | backend/scripts/update-csv-ranks.mjs:258-293 | for any non-empty list of values, reading back the written line gives the same values (commas, quotes and spaces included); the trimming reader gives them trimmed |
| CsvLine.EmptyLine | backend/scripts/update-csv-ranks.mjs:285-293 | the empty list writes the empty line, which reads back as one empty field |
| CsvParser.CleanPhoneNumber | backend/src/lib/csvParser.ts:186-196 | the cleaned number has no surrounding whitespace |
| CsvParser.CleanPhoneNumberWithoutLetters | backend/src/lib/csvParser.ts:186-196 | a number written without letters is only trimmed: neither pattern can match it |
| CsvParser.CleanPhoneNumberDropsExtension | backend/src/lib/csvParser.ts:188 | an extension written "x123", "ext 123" or "extension-12" in any case, after the number and the whitespace before it, is removed |
| CsvParser.StationCallLetters | backend/src/lib/csvParser.ts:58-69 | stored call letters are non-empty, trimmed and hold no "/"; a blank station cell gives none |
| CsvParser.StationSuffixDropped | backend/src/lib/csvParser.ts:61 | "WCBS-TV", "KXAS-DT" and "WXYZ-dt2" are stored as their call letters alone |
| CsvParser.NormalizeAirTime | backend/src/lib/csvParser.ts:201-221 | the normalised air time has no surrounding whitespace |
| CsvParser.NormalizeSpacesMeridiem | backend/src/lib/csvParser.ts:217 | "7:00PM" becomes "7:00 PM", and "7:00 PM" is kept as it is |
| CsvParser.NormalizeTakesFirstOfSeveral | backend/src/lib/csvParser.ts:203-205 | of several times joined by "&", the first is kept |
| CsvParser.NormalizeSlashPrefersMeridiem | backend/src/lib/csvParser.ts:206-214 | of two times joined by "/", the second is kept when the first has no AM/PM |
| CsvParser.DetermineTimezone | backend/src/lib/csvParser.ts:162-181 | the zone is "EST" whatever the two times are |
| CsvParser.PhoneFrom | backend/src/lib/csvParser.ts:83-95 | a kept phone has a non-empty number and label and the column's primary flag; a blank column yields none |
| CsvParser.RowPhones | backend/src/lib/csvParser.ts:80-140 | at most four phones, in column order, each with a number and a label; only the first can be primary, and it is iff it came from the main column; no kept column gives no phones |
| CsvParser.FeedListOf | backend/src/lib/csvParser.ts:54-55 | the market is on the "3pm" list iff the trimmed feed contains "3:00", otherwise on "6pm" |
| CsvParser.AirTimeCell | backend/src/lib/csvParser.ts:72 | the row's own air time when it has one, else the Eastern time, else "10:00 PM" |
| CsvParser.ParseCsvRow | backend/src/lib/csvParser.ts:42-157 | a market iff the rank is non-empty and not "Rank", the city is non-empty, the rank parses as an integer and a phone survives; it carries that number, the trimmed city, "EST" and the normalised fields |
| CsvFile.NonBlankLines | backend/src/lib/csvParser.ts:227 | the lines kept are trimmed and non-empty |
| CsvFile.StripOuterQuotes | backend/src/lib/csvParser.ts:234 | one leading and one trailing quote are dropped from a quoted name; a name without quotes at either end is kept |
| CsvFile.HeaderMap | backend/src/lib/csvParser.ts:235-238 | the header map holds exactly the header's names, each mapped to a column holding it |
| CsvFile.CellOfHeader | backend/src/lib/csvParser.ts:249-264 | a cell is taken from the last column with that name; a name the header lacks reads as "" |
| CsvFile.ParsedRowsFromLines | backend/src/lib/csvParser.ts:244-267 | every parsed row comes from a data line, and every data line the row parser accepts yields its market |
| CsvFile.NewPhonesNumbers | backend/src/lib/csvParser.ts:273-278 | the phones appended bring exactly the incoming numbers that were not already there |
| CsvFile.MergeAllSummarizes | backend/src/lib/csvParser.ts:269-286 | after the loop there is one market per market number of the parsed rows, and each is the merge of the rows with its number: the first row's fields and phones first, every phone number the rows carry, and "6pm" iff one of them is on it |
| CsvFile.SortedByNumber | backend/src/lib/csvParser.ts:289 | sorting markets with distinct numbers orders them strictly by number and keeps them all |
| CsvFile.SortedMergeOfRows | backend/src/lib/csvParser.ts:269-289 | the merged markets, sorted, have distinct numbers in ascending order, one per number among the rows, each the merge of its rows |
| CsvFile.ParseCsvOutcome | backend/src/lib/csvParser.ts:226-290 | an error, with its message, iff there are fewer than two non-blank lines; otherwise distinct market numbers in ascending order, one per number among the parsed rows, each market the merge of the rows with its number |
| CsvFile.MergePhones | backend/src/lib/csvParser.ts:273-278 | the existing phones, then the incoming ones whose numbers were not among them when the merge began, in order |
| CsvFile.BuildHeaderMap | backend/src/lib/csvParser.ts:235-238 | the loop builds the header map |
| CsvFile.TakeRow | backend/src/lib/csvParser.ts:269-286 | one row is merged into its market or appended as a new one, and the number map keeps pointing at each number's market |
| CsvFile.MergeLines | backend/src/lib/csvParser.ts:244-287 | the loop over the data lines gives the merge of the rows they yield |
| CsvFile.ParseCsv | backend/src/lib/csvParser.ts:226-290 | the method computes the parse result stated above |
| CsvImport.FindByNumber | backend/src/routes/import.ts:53-56 | the lookup by market number gives the first position holding that number, and none exactly when no market has it |
| CsvImport.FieldLogsShape | backend/src/routes/import.ts:90-129 | an update writes at most four field log rows, all for the market and by the editor, and never one for the time zone |
| CsvImport.FieldLogsExactly | backend/src/routes/import.ts:90-129 | a log row for name, station, air time or list exists exactly when that field changes, and it carries the old and new values, with an empty station logged as null |
| CsvImport.RepairTarget | backend/src/routes/import.ts:156-172 | a phone is made primary only when the market had no primary phone and phones came in; the chosen phone is one of the market's old phones and has the first parsed number |
| CsvImport.UpdateMarketRow | backend/src/routes/import.ts:79-88 | an update replaces the market's name, station call letters, air time, time zone and list, and keeps its position, identifier and number; every other market stays as it was |
| CsvImport.UpdateKeepsPhones | backend/src/routes/import.ts:131-172 | an update only adds phone rows, owned by the market and given fresh identifiers; the old rows change at most in their primary flag, and rows of other markets do not change |
| CsvImport.UpdatePhoneNumbers | backend/src/routes/import.ts:132-154 | as sets, the market's numbers after an update are its old numbers together with the parsed ones |
| CsvImport.UpdateRepairsPrimary | backend/src/routes/import.ts:156-172 | when a repair target exists, it becomes the market's only primary phone; otherwise the old phone rows are untouched |
| CsvImport.CreateMarketRow | backend/src/routes/import.ts:176-202 | a created market is appended with the next identifier and the parsed fields, and gets one "market" log row saying "Created market &lt;number&gt;: &lt;name&gt;" |
| CsvImport.CreatedPhonesFacts | backend/src/routes/import.ts:185-190 | a created market's phone rows are the parsed phones in order, with consecutive identifiers; the first is primary and each of the others keeps its parsed flag |
| CsvImport.CreateOwnPhones | backend/src/routes/import.ts:176-193 | in a valid store, a new market owns exactly the phone rows created with it |
| CsvImport.ErrorText | backend/src/routes/import.ts:210 | a recorded error message is never empty, and "Unknown error" stands in for a missing message |
| CsvImport.StepKeepsValid | backend/src/routes/import.ts:50-214 | one market's step keeps the store valid: identifiers stay below the next identifier and phone identifiers stay unique |
| CsvImport.ImportAllValid | backend/src/routes/import.ts:50-214 | a whole import keeps the store valid |
| CsvImport.ImportAllTally | backend/src/routes/import.ts:42-214 | every parsed market is counted once, as created, updated or skipped; there is one error per skipped market, and the skipped markets are exactly those whose calls threw |
| CsvImport.ImportAllErrors | backend/src/routes/import.ts:206-213 | each recorded error names a market whose calls threw, with that call's message or "Unknown error" |
| CsvImport.DryRunChangesNothing | backend/src/routes/import.ts:58-66 | a dry run leaves every table unchanged, and counts as updated exactly the markets that exist and do not throw |
| CsvImport.ImportAllGrows | backend/src/routes/import.ts:176-204 | a real run adds exactly one market row per created market |
| CsvImport.ImportAllApplies | backend/src/routes/import.ts:68-205 | after a real import of markets with distinct numbers, every market that did not throw is in the table under its number, with its parsed fields |
| CsvImport.LogFieldChanges | backend/src/routes/import.ts:90-129 | the four field checks append exactly the field log rows of the update |
| CsvImport.AddPhones | backend/src/routes/import.ts:132-154 | the phone loop creates a row and a "phoneNumber" log row for each parsed phone with a number the market did not have |
| CsvImport.UpdateMarket | backend/src/routes/import.ts:68-174 | updating an existing market leaves the database as the specification of an update says |
| CsvImport.CreateMarket | backend/src/routes/import.ts:175-204 | creating a market leaves the database as the specification of a creation says |
| CsvImport.ImportMarket | backend/src/routes/import.ts:50-213 | one market is skipped when its calls throw, counted without writes in a dry run, and otherwise updated or created, as its specification says |
| CsvImport.ImportMarkets | backend/src/routes/import.ts:50-214 | the import loop over the parsed markets, in order, yields the specified counts and tables |
| CsvImport.RouteEditor | backend/src/routes/import.ts:97 | edits are attributed to the user's e-mail when it is non-empty, and to "CSV Import" otherwise |
| CsvImport.ImportCsvRoute | backend/src/routes/import.ts:20-225 | an empty body gives 400 "CSV data is required", and a file the parser refuses gives 400 "Failed to parse CSV: …"; neither changes anything; otherwise the import runs and responds with its counts and summary message |
| CsvImport.ImportScript | backend/scripts/import-csv.ts:16-209 | a missing path, an unreadable file and a parse error each exit with status 1 before any write; otherwise the import runs for real, with edits by "CSV Import Script" |
| CsvImport.UpdatePhones | backend/src/routes/import.ts:131-172 | the phone part of an update adds the new numbers and then applies the primary repair |
| MarketRoutes.ListMarketsSorted | backend/src/routes/market.ts:12-23 | the listing holds every market exactly once (a permutation of the table), in ascending market-number order, each with exactly its own phones |
| MarketRoutes.FetchMarket | backend/src/routes/market.ts:34-39 | the lookup by identifier finds nothing exactly when no market has it; otherwise it gives that market with exactly its phones |
| MarketRoutes.GetMarket | backend/src/routes/market.ts:31-45 | the reply is 404 "Market not found" exactly when no market has the identifier; otherwise it is that market with its phones |
| MarketRoutes.SetPrimaryRefuses | backend/src/routes/market.ts:58-72 | set-primary answers 404 without writing exactly when the market is missing or the phone is not one of its phones, and "Market not found" when the market is missing |
| MarketRoutes.SetPrimaryExactlyOneRoute | backend/src/routes/market.ts:77-87 | after set-primary, the chosen phone is the market's only primary phone; only primary flags change, and rows of other markets do not change |
| MarketRoutes.PrimaryLogValues | backend/src/routes/market.ts:74-97 | the "primaryPhone" log row gives the chosen phone as "label: number", and as old value the market's first primary phone, or null when it had none |
| MarketRoutes.SetPrimaryLogs | backend/src/routes/market.ts:89-97 | a successful set-primary appends exactly one log row, for a phone of the market with the chosen identifier |
| MarketRoutes.SetPrimaryRoute | backend/src/routes/market.ts:53-105 | the route's writes on the database and its reply are those of the set-primary specification |
| MarketRoutes.PutFieldLogsShape | backend/src/routes/market.ts:141-190 | the update logs at most five field rows, all for the market and by the editor |
| MarketRoutes.PutLogsName | backend/src/routes/market.ts:142-150 | a "name" row exists exactly when the name changes, and carries the old and new names |
| MarketRoutes.PutLogsStation | backend/src/routes/market.ts:152-160 | a "stationCallLetters" row exists exactly when the request's value differs from the stored one, with an absent request value always differing; empty values are logged as null |
| MarketRoutes.PutLogsAirTime | backend/src/routes/market.ts:162-170 | an "airTime" row exists exactly when the air time changes, and carries both values |
| MarketRoutes.PutLogsTimezone | backend/src/routes/market.ts:172-180 | a "timezone" row exists exactly when the time zone changes, and an empty value is logged as null |
| MarketRoutes.PutLogsList | backend/src/routes/market.ts:182-190 | a "list" row exists exactly when the list changes, and carries both list names |
| MarketRoutes.PutNotFound | backend/src/routes/market.ts:130-137 | the update refuses with 404 and no write exactly when no market has the identifier |
| MarketRoutes.PutMarketRow | backend/src/routes/market.ts:192-202 | the market row takes the requested name, air time, time zone and list, and the requested station when one is given; every other market row is unchanged |
| MarketRoutes.Dropped | backend/src/routes/market.ts:206-212 | the phones to delete are exactly the market's phones whose identifiers the request does not name |
| MarketRoutes.DeleteLogs | backend/src/routes/market.ts:214-223 | each deleted phone gets its own "phoneNumber" row, in order, with the old value "label: number" and a null new value |
| MarketRoutes.AfterDeletesKeeps | backend/src/routes/market.ts:214-215 | after the deletes, the table holds exactly the rows whose identifiers were not deleted |
| MarketRoutes.PutDropsUnnamed | backend/src/routes/market.ts:204-267 | after the update, every phone of the market is one the request names or one the update created |
| MarketRoutes.PutKeepsOtherMarkets | backend/src/routes/market.ts:204-267 | the update keeps every phone row of other markets, under its identifier and market |
| MarketRoutes.PutOverwritesNamed | backend/src/routes/market.ts:225-248 | when the update succeeds, each named phone row carries the requested label, number and primary flag |
| MarketRoutes.PutCreatesUnnamed | backend/src/routes/market.ts:249-266 | when the update succeeds, the table ends with one new row per unnamed request phone, in request order, with consecutive fresh identifiers |
| MarketRoutes.UpsertFailedStays | backend/src/routes/market.ts:226-280 | once a phone write throws, the later request phones write nothing |
| MarketRoutes.PutSucceeds | backend/src/routes/market.ts:225-276 | updating an existing market succeeds and returns it whenever every identifier the request names has a row |
| MarketRoutes.PutLogOrder | backend/src/routes/market.ts:141-267 | the update logs, in order, the changed fields, one row per deleted phone, and then only "phoneNumber" rows of the market by the editor |
| MarketRoutes.PutMarketRoute | backend/src/routes/market.ts:113-280 | the route's writes on the database and its reply are those of the update specification |
| MarketRoutes.RemoveId | backend/src/routes/market.ts:303-305 | deleting by identifier keeps exactly the rows with other identifiers |
| MarketRoutes.DeleteKeepsLastPhone | backend/src/routes/market.ts:289-325 | delete refuses with 400 and no write exactly when the market named in the path has at most one phone, so that market keeps at least one; the phone removed is the one with the given id, whichever market owns it; otherwise the row is gone and one log row records it, and a missing phone gives 500 |
| MarketRoutes.DeletePhoneRoute | backend/src/routes/market.ts:284-330 | the route's writes on the database and its reply are those of the delete specification |
| RankCsv.CrLfToLf | backend/scripts/update-csv-ranks.mjs:301 | turning "\r\n" into "\n" never lengthens the text and leaves a text without line feeds alone |
| RankCsv.Lines | backend/scripts/update-csv-ranks.mjs:301 | the file splits into at least one line, none holding a line feed |
| RankCsv.IndexOf | backend/scripts/update-csv-ranks.mjs:311-312 | a column is found at the first header position holding its name, and is missing exactly when no position holds it |
| RankCsv.CellOr | backend/scripts/update-csv-ranks.mjs:334 | `values[k] \|\| ''`: the cell at the position, or empty past the end |
| RankCsv.SetCell | backend/scripts/update-csv-ranks.mjs:347 | setting a cell changes only that position; past the end the row grows and the skipped cells are empty |
| RankCsv.UpdateRanksNeedsColumns | backend/scripts/update-csv-ranks.mjs:309-317 | nothing is written exactly when the header lacks the Rank or the City column |
| RankCsv.RewriteFileLines | backend/scripts/update-csv-ranks.mjs:321-354 | the output has one line per line read; the header, the blank lines and the lines without a rank are kept as they were, and every other line is rewritten from its cells |
| RankCsv.UpdateRanksSplits | backend/scripts/update-csv-ranks.mjs:353-356 | the text written splits back into exactly the output lines, so the line count is kept |
| RankCsv.RewriteKeepsCells | backend/scripts/update-csv-ranks.mjs:333-353 | a rewritten line reads back as its cells with the Rank cell set to the rank found; every other cell is kept, quotes and commas included |
| RankCsv.RewriteLoop | backend/scripts/update-csv-ranks.mjs:321-354 | the loop over the data lines yields the specified output, the count of changed Rank cells and the count of unmatched lines |
| RankCsv.UpdateRanksLoop | backend/scripts/update-csv-ranks.mjs:295-360 | the whole rewrite writes the specified text, or nothing with zero counts when the columns are missing |
| NielsenRanks.BeforeComma | backend/scripts/update-csv-ranks.mjs:228 | the text before the first comma: without a comma it is the whole text, otherwise it is the prefix that ends at a comma |
| NielsenRanks.CleanCityName | backend/scripts/update-csv-ranks.mjs:223-233 | the cleaned city is trimmed; without a comma it has no lower-case letter; a comma can survive only as its first character |
| NielsenRanks.CleanCityOfState | backend/scripts/update-csv-ranks.mjs:226-231 | a "CITY, ST" cell cleans to the upper-case city |
| NielsenRanks.CleanCityQuoted | backend/scripts/update-csv-ranks.mjs:226 | a quoted cell cleans as its contents do |
| NielsenRanks.ExactRank | backend/scripts/update-csv-ranks.mjs:239-241 | the direct lookup finds a rank exactly when an entry has the city as key and a non-zero rank |
| NielsenRanks.PartialIndex | backend/scripts/update-csv-ranks.mjs:244-248 | the partial match is the first entry, in table order, whose key contains the city or is contained in it, and none exactly when no key overlaps |
| NielsenRanks.FindPartial | backend/scripts/update-csv-ranks.mjs:244-248 | the loop over the entries stops at the partial match |
| NielsenRanks.SpecialRank | backend/scripts/update-csv-ranks.mjs:251-255 | the special cases give 57 for Pensacola or Mobile, 83 for Bryan with TX, and 8 for Washington with D.C, tried in that order |
| NielsenRanks.EmptyCityTakesFirstRank | backend/scripts/update-csv-ranks.mjs:235-248 | as written, a City cell that cleans to nothing is contained in the first key, so it takes the first entry's rank |
| NielsenRanks.EmptyCities | backend/scripts/update-csv-ranks.mjs:223-226 | the empty cell, a blank cell and a pair of quotes all clean to nothing |
| NielsenRanks.NielsenRankAgrees | backend/scripts/update-csv-ranks.mjs:235-256 | the corrected lookup agrees with the one written wherever the city is not empty |
| NielsenRanks.EmptyCityUnmatched | backend/scripts/update-csv-ranks.mjs:235-256 | with the corrected lookup, an empty city finds no rank in a table with no empty key |
| NielsenRanks.KeyFindsItsRank | backend/scripts/update-csv-ranks.mjs:239-241 | a city that is a key with a non-zero rank gets that rank |
| NielsenRanks.NielsenRankSource | backend/scripts/update-csv-ranks.mjs:235-256 | a rank found is an entry's rank or a special case; none is found exactly when the city is empty, or no key matches, no key overlaps and no special case applies |
| NielsenRanks.FindNielsenRank | backend/scripts/update-csv-ranks.mjs:235-256 | the method's lookup is the corrected lookup |
| NielsenRanks.Truthy | backend/scripts/update-csv-ranks.mjs:339 | a rank of 0 counts as no rank |
| NielsenRanks.UpdateCsvRanks | backend/scripts/update-csv-ranks.mjs:295-356 | with the corrected lookup, a file is written exactly when the header has the Rank and City columns |
| NielsenRanks.UpdateCsvRanksAsWritten | backend/scripts/update-csv-ranks.mjs:295-356 | as written, a file is written exactly when the header has the Rank and City columns |
| NielsenRanks.EmptyCityLineRankedAsWritten | backend/scripts/update-csv-ranks.mjs:235-248 | as written, a line whose City cell cleans to nothing is not unmatched: its Rank cell takes the first entry's rank |
| NielsenRanks.EmptyCityLineKept | backend/scripts/update-csv-ranks.mjs:333-343 | with the corrected lookup, a line whose City cell cleans to nothing counts as unmatched and is written back unchanged |
| NielsenRanks.UpdateCsvRanksRun | backend/scripts/update-csv-ranks.mjs:295-360 | the script's run with the corrected lookup writes the specified file, with the counts of changed and unmatched lines |
| UstvdbRanks.DropRun | backend/scripts/update-market-ranks-from-ustvdb.mjs:51 | dropping a leading run of characters outside [a-z0-9] leaves a suffix that starts with a letter or digit, or nothing |
| UstvdbRanks.Squash | backend/scripts/update-market-ranks-from-ustvdb.mjs:51 | after the replacement only lower-case letters, digits and single spaces remain, and the text is empty only when it was |
| UstvdbRanks.Tokenize | backend/scripts/update-market-ranks-from-ustvdb.mjs:48-54 | every token has at least three characters, all lower-case letters or digits |
| UstvdbRanks.NoTokens | backend/scripts/update-market-ranks-from-ustvdb.mjs:48-54 | a text without a letter or a digit has no token |
| UstvdbRanks.SimilarSymmetric | backend/scripts/update-market-ranks-from-ustvdb.mjs:56-61 | token similarity is symmetric |
| UstvdbRanks.SimilarIff | backend/scripts/update-market-ranks-from-ustvdb.mjs:56-61 | two tokens are similar exactly when they are equal, or the shorter has at least three characters and begins the longer |
| UstvdbRanks.TokenScore | backend/scripts/update-market-ranks-from-ustvdb.mjs:69-77 | the token score is at most the number of tokens, and is 0 exactly when no token has a similar token on the other side |
| UstvdbRanks.FindSimilar | backend/scripts/update-market-ranks-from-ustvdb.mjs:71-76 | the inner loop finds a similar token exactly when one exists |
| UstvdbRanks.CountSimilar | backend/scripts/update-market-ranks-from-ustvdb.mjs:69-77 | the nested loops count the token score |
| UstvdbRanks.Scored | backend/scripts/update-market-ranks-from-ustvdb.mjs:78-85 | a candidate with token score 0 is skipped; otherwise it scores ten per token, plus 2 with the state bonus |
| UstvdbRanks.BestIndex | backend/scripts/update-market-ranks-from-ustvdb.mjs:86-88 | the candidate kept has the highest score and comes first among equals; none is kept exactly when every candidate was skipped |
| UstvdbRanks.BestStep | backend/scripts/update-market-ranks-from-ustvdb.mjs:86-88 | a new candidate replaces the best so far only with a strictly higher score |
| UstvdbRanks.BestMatchNoneIff | backend/scripts/update-market-ranks-from-ustvdb.mjs:63-92 | no rank is found for a seed market exactly when no DMA name has a token similar to one of the seed name's |
| UstvdbRanks.BestMatchIsBest | backend/scripts/update-market-ranks-from-ustvdb.mjs:63-92 | the DMA picked shares a token, gives its rank, scores at least as high as every DMA and higher than every earlier one |
| UstvdbRanks.ScoreDma | backend/scripts/update-market-ranks-from-ustvdb.mjs:68-85 | scoring one DMA with the nested token loops gives its specified score |
| UstvdbRanks.FindBestMatchForSeed | backend/scripts/update-market-ranks-from-ustvdb.mjs:63-92 | the loop over the DMAs gives the specified best match |
| UstvdbRanks.SortDmasSorted | backend/scripts/update-market-ranks-from-ustvdb.mjs:43 | the DMAs come out in rank order, and they are the same rows as went in |
| UstvdbRanks.PairAt | backend/scripts/update-market-ranks-from-ustvdb.mjs:169 | a match at a comma gives the position of two letters after the comma and its whitespace |
| UstvdbRanks.FirstPair | backend/scripts/update-market-ranks-from-ustvdb.mjs:169 | the lazy group stops at the first comma that is followed by a state pair, and never crosses a line terminator |
| UstvdbRanks.ParseCityAndState | backend/scripts/update-market-ranks-from-ustvdb.mjs:167-174 | the state, when there is one, is two capital letters, and the city is trimmed |
| UstvdbRanks.NoCommaNoState | backend/scripts/update-market-ranks-from-ustvdb.mjs:170-172 | without a comma there is no state, and the city is the trimmed cell |
| UstvdbRanks.CityCommaState | backend/scripts/update-market-ranks-from-ustvdb.mjs:169-173 | "City, ST", followed by anything that does not continue a word, gives the trimmed city and ST upper-cased |
| UstvdbRanks.BestSeedIsBest | backend/scripts/update-market-ranks-from-ustvdb.mjs:176-204 | no seed market is picked exactly when no market name shares a similar token with the city; the one picked scores highest and comes first among equals |
| UstvdbRanks.ScoreMarket | backend/scripts/update-market-ranks-from-ustvdb.mjs:181-196 | scoring one seed market with the nested token loops gives its specified score |
| UstvdbRanks.FindBestSeedForCsv | backend/scripts/update-market-ranks-from-ustvdb.mjs:176-204 | the loop over the seed markets gives the specified best market |
| UstvdbRanks.PartText | backend/scripts/update-market-ranks-from-ustvdb.mjs:99-109 | text between entries, and an entry no DMA matches, are written back unchanged |
| UstvdbRanks.CountsBound | backend/scripts/update-market-ranks-from-ustvdb.mjs:96-107 | each entry is counted at most once, as updated or as unmatched |
| UstvdbRanks.RenderEntryFields | backend/scripts/update-market-ranks-from-ustvdb.mjs:108 | a rewritten entry, split at its quotes, gives back the new rank's part and the same name, state and area code |
| UstvdbRanks.RankPieceParses | backend/scripts/update-market-ranks-from-ustvdb.mjs:108-121 | the rank written into an entry parses back to that rank |
| UstvdbRanks.ReplaceEntry | backend/scripts/update-market-ranks-from-ustvdb.mjs:99-109 | the replacement callback gives the entry's new text and says whether it was updated or unmatched |
| UstvdbRanks.ParseSeedAndUpdateRanks | backend/scripts/update-market-ranks-from-ustvdb.mjs:94-113 | the replacement over every entry yields the specified seed text and both counters |
| UstvdbRanks.SeedMarkets | backend/scripts/update-market-ranks-from-ustvdb.mjs:115-128 | reading the rewritten seed gives one market per entry |
| UstvdbRanks.UpdatedMarketRank | backend/scripts/update-market-ranks-from-ustvdb.mjs:99-128 | an entry a DMA matches takes that DMA's rank, the others keep their old rank, and names, states and area codes stay |
| UstvdbRanks.UpdateCsvRanks | backend/scripts/update-market-ranks-from-ustvdb.mjs:206-218 | when the header lacks the Rank or the City column, the text comes back as it was |
| UstvdbRanks.UpdateCsvRanksLines | backend/scripts/update-market-ranks-from-ustvdb.mjs:220-251 | with both columns, the text written has one line per line read, each rewritten as specified |
| UstvdbRanks.EmptyCellUnmatched | backend/scripts/update-market-ranks-from-ustvdb.mjs:231-238 | an empty City cell, or one holding only a pair of quotes, matches no seed market |
| UstvdbRanks.UpdateCsvRanksRun | backend/scripts/update-market-ranks-from-ustvdb.mjs:206-252 | the CSV rewrite with its counters gives the specified text |
| UstvdbRanks.Run | backend/scripts/update-market-ranks-from-ustvdb.mjs:254-282 | the run aborts with "No DMA rows found in snapshot; aborting" exactly when there are no DMAs; otherwise the market file is rewritten exactly when it exists |
| MigrateTimes.Offset | backend/migrate-times.ts:6-17 | a zone's offset from Eastern time lies between -5 and 0 hours, and an unknown zone counts as Eastern |
| MigrateTimes.ClockAt | backend/migrate-times.ts:20 | a clock match at a position ends after that position and within the text |
| MigrateTimes.ClockParts | backend/migrate-times.ts:20-25 | a clock found has non-empty hour and minute digits and the period "AM" or "PM" in capitals |
| MigrateTimes.NoColonUnchanged | backend/migrate-times.ts:20-21 | a text with no colon holds no clock and is returned as it was |
| MigrateTimes.WrapIsHourOfDay | backend/migrate-times.ts:34-36 | within a day either way, the overflow and underflow fix gives the hour of the day, the hour modulo 24 |
| MigrateTimes.DisplayReadsBack | backend/migrate-times.ts:38-40 | an hour of the day is shown as 1 to 12, with "PM" exactly from noon on, and reads back as the same hour |
| MigrateTimes.To24Clock | backend/migrate-times.ts:27-29 | on the 24-hour clock, 12 AM is midnight, 12 PM is noon, and the other PM hours add 12 |
| MigrateTimes.ConvertClockShifts | backend/migrate-times.ts:31-42 | for a clock hour and a known offset, the time written back is the local time moved by the offset modulo one day, shown as 1 to 12 |
| MigrateTimes.EasternUnchanged | backend/migrate-times.ts:7-42 | an Eastern time comes back with the same hour and period |
| MigrateTimes.ConvertToEstOfClock | backend/migrate-times.ts:16-43 | a text that opens with a clock has that clock converted: its hour read as a decimal number, its minutes copied and its period case-folded |
| MigrateTimes.ConvertAtStart | backend/migrate-times.ts:20-42 | a clock at the very start of the text is the one converted |
| Seed.LineNumber | backend/prisma/seed.ts:7 | the line part of a generated number, 1000 + suffix mod 9000, always has four digits |
| Seed.SuffixTextValue | backend/prisma/seed.ts:7 | the exchange part is at least three digits and reads back as the suffix |
| Seed.GeneratePhoneShape | backend/prisma/seed.ts:6-8 | a generated number is "+1 (area) ", the padded suffix, a dash and the four-digit line number |
| Seed.GeneratePhoneReadsBack | backend/prisma/seed.ts:6-8 | the suffix can be read back from the number it generated |
| Seed.GeneratePhoneInjective | backend/prisma/seed.ts:6-8 | within an area code, different suffixes give different numbers |
| Seed.GetTimezone | backend/prisma/seed.ts:11-26 | the zone is one of EST, CST, MST, PST, AKST and HST |
| Seed.GetAirTimeAndTimezone | backend/prisma/seed.ts:30-41 | every show airs at "10:00 PM" Eastern; the local zone is given exactly when it is not Eastern |
| Seed.AnyInTwo | backend/prisma/seed.ts:19-24 | a two-letter state contains a code of a group exactly when it is that code |
| Seed.TimezoneOfEastern | backend/prisma/seed.ts:12-19 | each Eastern state code gets "EST" |
| Seed.TimezoneOfCentral | backend/prisma/seed.ts:13-20 | each Central state code gets "CST"; no earlier group takes it |
| Seed.TimezoneOfMountain | backend/prisma/seed.ts:14-21 | each Mountain state code gets "MST"; no earlier group takes it |
| Seed.TimezoneOfPacific | backend/prisma/seed.ts:15-22 | each Pacific state code gets "PST"; no earlier group takes it |
| Seed.TimezoneOfAlaska | backend/prisma/seed.ts:16-23 | "AK" gets "AKST" |
| Seed.TimezoneOfHawaii | backend/prisma/seed.ts:17-24 | "HI" gets "HST" |
| Seed.UnknownStateEastern | backend/prisma/seed.ts:25 | a state containing no listed code is taken to be Eastern |
| Seed.ListFor | backend/prisma/seed.ts:270-271 | markets ranked 100 or better go on the 3pm list and the others on the 6pm list |
| Seed.RowsOf | backend/prisma/seed.ts:266-289 | the phone rows owned by the i-th seeded market are exactly the rows made for it |
| Seed.SeededPhonesOf | backend/prisma/seed.ts:280-285 | each seeded market owns exactly its own two phones |
| Seed.SeedPhonesFacts | backend/prisma/seed.ts:281-284 | a seeded market's phones are two, "Main Station" first and primary and "News Desk" second, with different numbers |
| Seed.SeedRowFacts | backend/prisma/seed.ts:273-279 | the seeded market row has the rank as market number, the name, "10:00 PM", its state's zone and the list its rank decides |
| Seed.CreateSeeded | backend/prisma/seed.ts:267-287 | one iteration appends the market and then its two phones, using three fresh identifiers |
| Seed.SeedDatabase | backend/prisma/seed.ts:43-291 | the phone and market tables are cleared, then every entry is created in order; the count is the number of entries |
| MarketEdit.LoadPhone | src/screens/MarketEditScreen.tsx:36-38 | a stored phone becomes an edit row with its identifier, not marked new |
| MarketEdit.LoadForm | src/screens/MarketEditScreen.tsx:31-38 | the form starts from the market: a missing call sign is blank, a blank zone is "EST", and every phone becomes a row, in order |
| MarketEdit.AddPhone | src/screens/MarketEditScreen.tsx:136-139 | adding a phone keeps the rows and appends one blank new row that is not primary |
| MarketEdit.DeletePhone | src/screens/MarketEditScreen.tsx:141-150 | the last remaining row cannot be deleted; otherwise the row at the index goes and the others keep their order, so at least one row is left |
| MarketEdit.DeleteUndoesAdd | src/screens/MarketEditScreen.tsx:136-150 | deleting the row just added gives the rows back |
| MarketEdit.SetPrimaryAt | src/screens/MarketEditScreen.tsx:152-155 | the row at the index becomes primary, no other row is, and nothing else changes |
| MarketEdit.SetPrimaryAtExactlyOne | src/screens/MarketEditScreen.tsx:152-155 | after choosing a row as primary, exactly one row is primary |
| MarketEdit.UpdatePhone | src/screens/MarketEditScreen.tsx:157-161 | one field of one row changes and nothing else does |
| MarketEdit.UpdateTextKeepsPrimaries | src/screens/MarketEditScreen.tsx:157-161 | editing a label or a number leaves the count of primary rows alone |
| MarketEdit.Reason | src/screens/MarketEditScreen.tsx:94 | an invalid number's alert gives the validator's error when there is one, and "Invalid phone number format" otherwise |
| MarketEdit.ProblemOfCases | src/screens/MarketEditScreen.tsx:83-95 | a row passes exactly when its label and number are not blank and the validator accepts the trimmed number; a blank label is reported before a blank number |
| MarketEdit.Checks | src/screens/MarketEditScreen.tsx:82-96 | each row's check names its own row, numbered from 1 |
| MarketEdit.PhoneProblemsSound | src/screens/MarketEditScreen.tsx:81-96 | each problem reported is the problem of the row it names, and the rows named increase |
| MarketEdit.PhoneProblemsComplete | src/screens/MarketEditScreen.tsx:81-96 | every row that has a problem is reported |
| MarketEdit.PhoneProblemsNone | src/screens/MarketEditScreen.tsx:98-101 | no problem is reported exactly when every row passes |
| MarketEdit.CollectProblems | src/screens/MarketEditScreen.tsx:81-96 | the loop collects exactly the problems of the rows, in row order |
| MarketEdit.FormatPhone | src/screens/MarketEditScreen.tsx:105-113 | a row is sent without an identifier when it is new, with its primary flag, a trimmed label, and the formatted number or else the trimmed one |
| MarketEdit.FormatPhones | src/screens/MarketEditScreen.tsx:105-113 | every row is sent, in order, formatted |
| MarketEdit.FormatKeepsPrimaries | src/screens/MarketEditScreen.tsx:105-113 | formatting keeps the count of primary rows |
| MarketEdit.LoadedRowsKeepIds | src/screens/MarketEditScreen.tsx:36-108 | rows loaded from the market keep their identifiers in the update |
| MarketEdit.SaveForm | src/screens/MarketEditScreen.tsx:55-122 | the save refuses on a blank name, then a blank air time, then no phones, then no primary row, then several, then invalid rows, each exactly in its case; a form that passes is sent trimmed and formatted |
| MarketEdit.SentUpdateHasOnePrimary | src/screens/MarketEditScreen.tsx:70-122 | an update that is sent carries exactly one primary phone |
| MarketEdit.CheckForm | src/screens/MarketEditScreen.tsx:55-122 | the save handler's checks, with the loop over the rows, decide as SaveForm specifies |
| MarketEdit.AfterSend | src/screens/MarketEditScreen.tsx:126-134 | the screen goes back exactly when the form was sent and the server accepted it; a rejected request fails the save and stays with the same update; a refused form keeps its error |
| MarketEdit.HandleSave | src/screens/MarketEditScreen.tsx:55-134 | the whole handler: the checks, then the request whose answer decides between going back and the "Failed to save changes" alert |
| VoiceRecorder.Start | src/hooks/useVoiceRecorder.ts:30-72 | without permission or when the device fails to start nothing changes; otherwise a recording is held, the count restarts from zero and the timer runs, and consistency is kept |
| VoiceRecorder.Stop | src/hooks/useVoiceRecorder.ts:74-95 | with no recording held, or a failed stop, nothing changes; otherwise the recording is released, its file address kept and the state is review |
| VoiceRecorder.Cancel | src/hooks/useVoiceRecorder.ts:97-106 | a failed stop-and-unload of a held recording changes nothing; otherwise, from any state, back to initial with no recording, no count and no file, the sound, playing flag and timer untouched |
| VoiceRecorder.ReRecord | src/hooks/useVoiceRecorder.ts:108-118 | a failed unload of a held sound changes nothing; otherwise the sound is released and the recorder is back to initial, not playing |
| VoiceRecorder.TogglePlayback | src/hooks/useVoiceRecorder.ts:120-141 | nothing without a file (an empty address counting as none) or on a failed call; with a sound it flips between playing and paused; without one a sound is made and plays |
| VoiceRecorder.PlaybackFinished | src/hooks/useVoiceRecorder.ts:142-146 | the end of the sound stops the playing flag and nothing else |
| VoiceRecorder.ToggleTwice | src/hooks/useVoiceRecorder.ts:126-133 | pausing and playing again returns to where it started |
| VoiceRecorder.TickAsWritten | src/hooks/useVoiceRecorder.ts:57-75 | each second adds one; at 60 the timer is cleared but the stop it calls sees no recording, so the state is otherwise unchanged |
| VoiceRecorder.Tick | src/hooks/useVoiceRecorder.ts:57-66 | as intended: each second adds one, and at 60 the timer is cleared and the held recording is stopped for review |
| VoiceRecorder.TicksBelowLimit | src/hooks/useVoiceRecorder.ts:57-66 | below 60 seconds both timers only count |
| VoiceRecorder.LimitDoesNotStop | src/hooks/useVoiceRecorder.ts:8-75 | as written, a recording left alone is still recording after the limit, with no timer left to stop it |
| VoiceRecorder.LimitStops | src/hooks/useVoiceRecorder.ts:8-66 | as intended, the 60th second puts the recording up for review with its file |
| VoiceRecorder.MinutesText | src/hooks/useVoiceRecorder.ts:155 | the minutes are written in decimal digits |
| VoiceRecorder.SecondsTextDigits | src/hooks/useVoiceRecorder.ts:156-157 | the seconds are two digits whose value is the seconds past the minute |
| VoiceRecorder.FormatDurationReadsBack | src/hooks/useVoiceRecorder.ts:154-158 | the text splits at its one colon into minutes and two-digit seconds that read back as the duration |
| VoiceRecorder.FormatDurationInjective | src/hooks/useVoiceRecorder.ts:154-158 | different durations are written differently |
| VoiceRecorder.VoiceRecorderHook.constructor | src/hooks/useVoiceRecorder.ts:11-16 | the hook starts initial, with no count, no recording, no file and no sound |
| VoiceRecorder.VoiceRecorderHook.StartRecording | src/hooks/useVoiceRecorder.ts:30-72 | the hook's new state is Start of its old state |
| VoiceRecorder.VoiceRecorderHook.StopRecording | src/hooks/useVoiceRecorder.ts:74-95 | the hook's new state is Stop of its old state |
| VoiceRecorder.VoiceRecorderHook.CancelRecording | src/hooks/useVoiceRecorder.ts:97-106 | the hook's new state is Cancel of its old state |
| VoiceRecorder.VoiceRecorderHook.ReRecording | src/hooks/useVoiceRecorder.ts:108-118 | the hook's new state is ReRecord of its old state |
| VoiceRecorder.VoiceRecorderHook.TogglePlaying | src/hooks/useVoiceRecorder.ts:120-152 | the hook's new state is TogglePlayback of its old state |
| VoiceRecorder.VoiceRecorderHook.FinishPlayback | src/hooks/useVoiceRecorder.ts:142-146 | the hook's new state is PlaybackFinished of its old state |
| VoiceRecorder.VoiceRecorderHook.TimerTick | src/hooks/useVoiceRecorder.ts:57-66 | the hook's timer callback is the tick as written |
| ThemeStore.ParseMode | src/state/themeStore.ts:58 | a stored value is taken exactly when it is one of the three mode names, and it is the mode of that name |
| ThemeStore.ParseModeName | src/state/themeStore.ts:31-59 | the value written for a mode reads back as that mode |
| ThemeStore.FixedScheme | src/state/themeStore.ts:38-43 | only the "system" mode leaves the scheme to the device |
| ThemeStore.WithMode | src/state/themeStore.ts:25-44 | the mode is taken, a light or dark mode becomes the scheme, "system" keeps the scheme, and the mode and scheme agree after |
| ThemeStore.WithDeviceScheme | src/state/themeStore.ts:46-52 | the device's scheme is taken only in "system" mode; otherwise nothing changes |
| ThemeStore.Loaded | src/state/themeStore.ts:54-72 | a valid stored name is applied as setting the mode applies it; nothing stored, an unknown name or a failed read leave mode and scheme alone; loading ends either way |
| ThemeStore.SavedModeRestored | src/state/themeStore.ts:25-72 | a mode saved in one session is the mode the next one loads, with a scheme that agrees |
| ThemeStore.WithModeLastWins | src/state/themeStore.ts:25-44 | after two settings the last mode is in force |
| ThemeStore.ModeLabel | src/state/themeStore.ts:78-91 | the label is one of "System Default", "Light" and "Dark" |
| ThemeStore.ModeLabelInjective | src/state/themeStore.ts:81-87 | the three modes have three different labels |
| ThemeStore.ThemeStorage.constructor | src/state/themeStore.ts:18 | the storage key holds the given value |
| ThemeStore.ThemeStore.constructor | src/state/themeStore.ts:20-23 | the store starts following the device, light, and loading |
| ThemeStore.ThemeStore.SetThemeMode | src/state/themeStore.ts:25-44 | the store's state is WithMode of its old state; a write that succeeds saves the mode's name and a failed one leaves storage alone |
| ThemeStore.ThemeStore.UpdateColorScheme | src/state/themeStore.ts:46-52 | the store's state is WithDeviceScheme of its old state |
| ThemeStore.ThemeStore.LoadTheme | src/state/themeStore.ts:54-72 | the store's state is Loaded of its old state and what was read, a failed read counting as nothing |
| MarketStore.ListStage | src/state/marketStore.ts:48-51 | "all" keeps the markets; otherwise exactly the markets on the chosen list, in order |
| MarketStore.TimeStage | src/state/marketStore.ts:53-60 | a blank time filter keeps the markets; otherwise exactly those whose lower-cased air time includes the trimmed lower-cased filter, in order |
| MarketStore.FivePmListIsEmpty | src/state/marketStore.ts:18-51 | the "5pm" filter leaves no market, since no market is on that list |
| MarketStore.ListStageOfList | src/state/marketStore.ts:49-51 | the 3pm and 6pm filters are the list's own filter |
| MarketStore.MarketStore.constructor | src/state/marketStore.ts:27-30 | the store starts with blank text and time and every list |
| MarketStore.MarketStore.SetFilterText | src/state/marketStore.ts:32-34 | the text filter is replaced; the other two are untouched |
| MarketStore.MarketStore.SetFilterTime | src/state/marketStore.ts:36-38 | the time filter is replaced; the other two are untouched |
| MarketStore.MarketStore.SetFilterList | src/state/marketStore.ts:40-42 | the list filter is replaced; the other two are untouched |
| MarketStore.MarketStore.GetFilteredMarkets | src/state/marketStore.ts:44-80 | without a search text the result is the list stage then the air-time stage: a subsequence of the markets holding exactly those on the chosen list that match the time filter; with blank filters and every list it is the input; with a search text it is the search over the two stages |
| NielsenRanks.NielsenRank | backend/scripts/update-csv-ranks.mjs:235-256 | corrected lookup: a city that cleans to nothing is matched only as an exact key, so it finds a rank only from an entry whose key is empty |
| Dispatch.SendToMarketPhone | backend/src/routes/alert.ts:67-156 | one market's text step on the database: a record for its chosen phone with a fresh id and, on failure, the phone's failure count raised; nothing at all for a market without a phone |
| Dispatch.RecordVoiceDelivery | backend/src/routes/alert.ts:224-238 | one market's voice step on the database: a "sent" record for its chosen phone with a fresh id, nothing for a market without a phone |
| CsvImport.AddPhone | backend/src/routes/import.ts:135-152 | one incoming phone: a known number is skipped; a new one gets a phone row with a fresh id and a "phoneNumber" log row naming its label and number |
| CsvFile.ParseDataLine | backend/src/lib/csvParser.ts:244-266 | one data line is split into values, laid out by the header and parsed as a row |
| Tables.FindMarket | backend/src/routes/market.ts:34-36 | the market found has the identifier asked for; none is found exactly when no market has it |
| Tables.FindPhone | backend/src/routes/market.ts:299-301 | the phone found has the identifier asked for; none is found exactly when no phone has it |

## Left out

- HTTP plumbing is left out. This covers Hono, request parsing and zod validation, authentication, CORS and the server bootstrap. Each route is modelled from its validated inputs to its reply and writes.
- Prisma is modelled as in-memory tables. Transactions, unique-constraint errors and database outages are not modelled, except for an import market failing before its first write (see CsvImport.StepStore below) and the failed update of the market route.
- Twilio's client is the `Provider` parameter, with its accepted status or thrown message per number.
- Callbacks are matched by phone number and status, as the code does. The provider's message identifier is never stored, so a late callback can land on a newer record for the same number.
- libphonenumber is the abstract `PhoneLib`: its parse outcome, validity and E.164 formatting are parameters. `formatPhoneForDisplay` is formatting only and is not modelled.
- backend/src/lib/phoneValidator.ts is not part of this model. The backend's validation is modelled on the same abstract library as the client's.
- The failure count only ever grows. No code path resets it after a success, so the reliability bands read a cumulative count and not a consecutive one.
- The stored recipient count of a text alert is the number of markets in the group, phone-less ones included. It is not the number of delivery records, and the model states it that way.
- The backend does not check the message length: the route accepts any string. Only the client's `AlertRules` apply the 320-character limit.
- Concurrency is not modelled:
  - the `Promise.all` and `Promise.allSettled` fan-outs run as sequential loops in market order;
  - callbacks arriving concurrently are taken one at a time.
- The clock and time zones are not modelled. This leaves out `hasAiredToday` and `getTimeUntilAir` (src/domain/market.ts:58-119) and the "Today"/"Yesterday" date keys of the alert log, which are given as a key function. `now` is a parameter.
- Some test expectations are not met by the code, and the model follows the code:
  - src/domain/phone.test.ts:155-158 and 165-168;
  - src/domain/market.test.ts:48-51, where `parseAirTime` gives NaN fields, not null.
- Deleting a phone whose identifier does not exist makes Prisma throw, so the route answers 500. The model gives that reply without writes.
- The "5pm" group is refused by the alert routes. The store's "5pm" list filter matches no market, since markets are only on "3pm" or "6pm".
- The import route's outer catch ("Import failed", 500), for an exception outside the per-market loop, is not modelled.
- CsvImport.StepStore: a market whose import throws is modelled as throwing before its first write, so it writes nothing. The route runs its writes (the market update, the edit log rows, the phone creates and the primary repair) in one try without a transaction, so a throw part-way keeps the writes made before it; that case is not modelled.
- Webhook.LatestPending: among pending records with the same send time, the database leaves the order open; the model takes the first in table order.
- NielsenRanks.UpdateCsvRanksRun runs the corrected lookup, as the finding below intends. The script as written differs only on lines whose City cell cleans to nothing, which it gives the first entry's rank; that run is NielsenRanks.UpdateCsvRanksAsWritten, and NielsenRanks.EmptyCityLineRankedAsWritten states what it does to such a line.
- AlertRules.CalculateSmsSegments: counts one unit per Dafny `char` (a Unicode scalar value), while JavaScript's `length` counts UTF-16 code units. An emoji or other character outside the Basic Multilingual Plane counts once here and twice in the source. `Dispatch.CeilSegments`, `AlertRules.ValidateAlertOrder` and `AlertRules.SmsLengthWarningBands` inherit this difference. The encoding is not modelled.
- Dispatch.CeilSegments: counts Unicode scalar values rather than UTF-16 code units, as above.
- AlertRules.ValidateAlertOrder: the message length check counts Unicode scalar values rather than UTF-16 code units, as above.
- AlertRules.SmsLengthWarningBands: its bands are stated over Unicode scalar values rather than UTF-16 code units, as above.
- Common.Lower: folds only the ASCII letters A-Z, while JavaScript's `toLowerCase` also folds accented and other non-ASCII letters. `Common.Upper` folds only a-z. `UstvdbRanks.Tokenize`, `UstvdbRanks.Squash`, `NielsenRanks.CleanCityName` and `MarketStore.TimeStage` therefore treat non-ASCII letters case-sensitively. Locale-aware case mapping is out of scope.
- Common.Upper: folds only a-z, as above.
- UstvdbRanks.Tokenize: lower-cases through `Common.Lower`, so only ASCII letters are folded, as above.
- UstvdbRanks.Squash: receives text folded by `Common.Lower` in `UstvdbRanks.Tokenize`, so it sees only ASCII letters folded, as above.
- NielsenRanks.CleanCityName: upper-cases through `Common.Upper`, so only ASCII letters are folded, as above.
- MarketStore.TimeStage: lower-cases through `Common.Lower`, so only ASCII letters are folded, as above.
- Common.ParseIntJs: returns an unbounded integer, while JavaScript's `parseInt` returns a double. Digit runs of value above 2^53 lose precision in the source and not here. Floating point is out of scope.
- The Fuse.js search is a parameter of `MarketStore.MarketStore.GetFilteredMarkets`. Its scoring is not modelled.
- MarketStore.MarketStore.GetFilteredMarkets: with a search text, nothing is stated beyond the search's input, because the search reorders and drops markets by score.
- The scheduling of React, zustand and the interval timers is not modelled. Each handler is one state transition. The interval is a flag that each tick reads, and one tick is one call.
- VoiceRecorder: the interval started by a recording is never cleared by a manual stop or a cancel. The model keeps the flag set, but does not model several intervals running at once.
- VoiceRecorder: the Haptics calls, the audio mode calls, the alerts shown on failure and the cleanup on unmount are side effects and are left out.
- MarketEdit.LoadForm assumes the market has loaded. The screen takes its initial state from the first render. A market still loading then leaves the blank defaults, with list "6pm", and these are not modelled.
- MarketEdit: the alerts are datatypes naming their message. Navigation and the haptics after a save are left out.
- MarketEdit.UpdatePhone requires an index within the rows, as the screen only calls it for a rendered row.
- ThemeStore.ModeLabel has no default branch. The source's fallback to "System Default" cannot be reached with a valid mode.
- `useInitializeTheme` only wires `loadTheme` and `updateColorScheme` to React effects. Those two are modelled as methods.
- MigrateTimes:
  - the model wraps the hour once, as the code does, and its lemmas cover hours 1 to 12 with the offsets of the known zones;
  - zone names that are keys of `Object.prototype` are treated as unknown;
  - the script's main only logs and is left out.
- Seed clears the phone and market tables and nothing else: the edit log is left as it is.
- The seed's market list is a parameter of `Seed.SeedDatabase`.
- UstvdbRanks: reading the snapshot with a regular expression is not modelled, and neither is reading the seed file's entries. The DMAs and the seed file are given already parsed into `SeedPart` chunks.
- File reads and writes in the scripts are parameters and results. Their console output is left out.
- The 200-entry Nielsen table in update-csv-ranks.mjs is a parameter with distinct keys, not the literal table.
- backend/check-db.ts and backend/test-csv-parse.ts are diagnostics and are not part of this model.

## Findings

| source | as written | input that shows it | evidently intended | confidence | as-written member | corrected member |
|---|---|---|---|---|---|---|
| backend/scripts/update-csv-ranks.mjs:235-248 | a city that cleans to the empty string falls through to the partial match, and `key.includes('')` holds for every key, so it takes the first entry's rank | a market row whose City cell is empty, blank or `""` | a row without a city finds no rank and is left unchanged | not executed | NielsenRanks.EmptyCityTakesFirstRank, NielsenRanks.EmptyCityLineRankedAsWritten | NielsenRanks.NielsenRank, NielsenRanks.EmptyCityUnmatched, NielsenRanks.EmptyCityLineKept |
| src/hooks/useVoiceRecorder.ts:57-75 | the interval's callback calls the `stopRecording` of the render that started the recording, when `recording` was still null, so at 60 seconds it returns at once; the timer is cleared and the recording goes on | start a recording and let 60 ticks pass | the 60th second stops the recording and puts it up for review | not executed | VoiceRecorder.TickAsWritten, VoiceRecorder.LimitDoesNotStop | VoiceRecorder.Tick, VoiceRecorder.LimitStops |
