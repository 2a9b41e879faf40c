# Society payment bot, modelled in Dafny

The bot keeps a ledger of society payments in a chat group. Anyone may record a
payment by sending a message such as `kamal-500`. The bot checks the name and
the amount, stores the payment, and confirms it. Administrators, listed by id
in the `ADMIN_IDS` environment variable, get report commands:

- `/table` lists the last 20 payments.
- `/member <name>` shows one member's history.
- `/export` builds a spreadsheet.
- `/stats`, `/today` and `/month` show totals.
- `/reset` followed within a minute by `/confirm_reset` empties the ledger.

This project models that core:

- `validators.dfy` holds the pure checks and formatting of
  `services/telegram_bot.py`: name and amount validation, capitalisation, the
  date format and the parsing of the administrator list.
- `telegram_bot.dfy` holds the rest of that file as a class `Bot`: the
  administrator set, one method per command with the admin gate in front of the report commands, and the
  free-text payment handler. The handler's parsing is also given declaratively
  (`Classify`), and the two are proved to agree.
- `routes.dfy` holds `routes/bot_routes.py`: the date helpers, the layout of
  the table, the member history and the export sheet (each built by a loop,
  proved against a function of the payments), and a class `Routes` with the
  command handlers and the reset-confirmation map.
- `ledger.dfy` holds the payment store that `controllers/payment_controller.py`
  wraps: a class whose rows are a sequence. Inserting appends a row. Resetting
  reports the row count and empties the store.
- `strings.dfy` holds the Python string operations the core relies on
  (`strip`, `split`, `str(int)`, `ljust`, case mapping), each with its own
  contract.
- `chat.dfy` holds replies as values. It also holds the environment of one
  handler call: the clock, and which external calls raise.

Amounts are exact decimals read from a plain decimal grammar. The store keeps
them as whole cents, rounded half up as the `DECIMAL(10,2)` column does.

## Model

| member | source | states |
|---|---|---|
| Validators.IsValidName | society-bot-python/services/telegram_bot.py:78-93 | is_valid_name: 1 to 100 characters, all in the name ranges, allowing one final newline; its properties are in the ValidNameIff, ValidNameCharacters and NameExamples rows |
| Validators.ValidNameIff | society-bot-python/services/telegram_bot.py:88-93 | A name with no trailing newline is valid exactly when it has 1 to 100 characters, each in a–z, A–Z, U+00C0–U+024F or U+1E00–U+1EFF |
| Validators.ValidNameCharacters | society-bot-python/services/telegram_bot.py:92-93 | Every character of a valid name is in the name ranges, except possibly one final newline, which Python's `$` admits |
| Validators.NameExamples | society-bot-python/services/telegram_bot.py:88-93 | "kamal", "Nimal", "José", "kamal\n", "k×mal" and "÷" are valid; "", "k1mal", "kamal perera" and "anne-marie" are not |
| Validators.ParseDecimal | society-bot-python/services/telegram_bot.py:106-108 | `float(amount_str)` on the decimal grammar: sign, mantissa and scale, or none when the text does not parse; its properties are in the rows that follow |
| Validators.IsValidAmount | society-bot-python/services/telegram_bot.py:96-110 | is_valid_amount: the text parses and 0 < amount ≤ 99999999.99; its properties are in the WholeAmount, NoDigitRejected, NegativeRejected, CentsTextRoundTrip and SubCentParsed rows |
| Validators.WholeAmount | society-bot-python/services/telegram_bot.py:106-110 | A run of digits is a valid amount exactly when its value n satisfies 0 < n ≤ 99999999, and then it records 100·n cents |
| Validators.WholeAmountExamples | society-bot-python/services/telegram_bot.py:106-110 | "500" is valid and records 50000 cents; "0" and "100000000" are rejected |
| Validators.NoDigitRejected | society-bot-python/services/telegram_bot.py:106-110 | A text without any digit never parses to a number, so it is never a valid amount |
| Validators.MalformedAmounts | society-bot-python/services/telegram_bot.py:106-110 | "abc", "", "-", "." and "-5" are rejected |
| Validators.NegativeRejected | society-bot-python/services/telegram_bot.py:106-110 | A text that starts with a minus sign once stripped is never a valid amount |
| Validators.ValidAmountCents | society-bot-python/services/telegram_bot.py:106-110 | A valid amount records at most 9999999999 cents, so it fits the DECIMAL(10,2) column |
| Validators.CentsTextRoundTrip | society-bot-python/services/telegram_bot.py:106-110 | For every cent count in (0, 9999999999], its two-decimal text is a valid amount and records exactly that count |
| Validators.SubCentParsed | society-bot-python/services/telegram_bot.py:106-110 | A positive amount below half a cent (e.g. "0.001") passes validation yet records 0 cents |
| Validators.CentsNearest | society-bot-python/config/db.py:164 | The stored cents are the nearest whole cent to the exact value, halves rounded up |
| Validators.CapitalizeFirstLetter | society-bot-python/services/telegram_bot.py:123-125 | Same length; the first character upper-cased, every later one lower-cased |
| Validators.CapitalizeIdempotent | society-bot-python/services/telegram_bot.py:123-125 | Capitalising twice equals capitalising once |
| Validators.CapitalizeExamples | society-bot-python/services/telegram_bot.py:123-125 | "kAMAL" becomes "Kamal", "joHN" becomes "John", "éLAN" becomes "Élan", "" stays "" |
| Validators.FormatDatetime | society-bot-python/services/telegram_bot.py:128-138 | format_datetime: `%Y-%m-%d %H:%M`; its layout is in the FormatDatetimeLayout row |
| Validators.FormatDatetimeLayout | society-bot-python/services/telegram_bot.py:138 | `YYYY-MM-DD HH:MM`: 16 characters, separators in place, each field the zero-padded date component |
| Validators.AdminIdsRoundTrip | society-bot-python/services/telegram_bot.py:53-57 | Joining decimal ids with commas and parsing gives back exactly the set of those ids |
| Validators.ParseAdminIds | society-bot-python/services/telegram_bot.py:53-57 | Every id is non-negative, and every comma-separated token that is all digits after stripping contributes its value |
| Validators.TokensParsed | society-bot-python/services/telegram_bot.py:53-57 | When every token is an id token, the set is exactly the tokens' values |
| Validators.AdminIdsExactly | society-bot-python/services/telegram_bot.py:53-57 | For every value, an integer is in the set exactly when some comma-separated token is, stripped, a non-empty run of digits with that value |
| Validators.DigitToken | society-bot-python/services/telegram_bot.py:55-56 | A run of digits is an id token with its decimal value |
| Validators.PaddedToken | society-bot-python/services/telegram_bot.py:55-56 | Whitespace around a digit run is ignored |
| Validators.SignedTokenDropped | society-bot-python/services/telegram_bot.py:56 | "-5" and "+5" are dropped, so no negative id gets in |
| Validators.TrailingTextDropped | society-bot-python/services/telegram_bot.py:56 | "12a" is dropped |
| Validators.BlankTokenDropped | society-bot-python/services/telegram_bot.py:56 | An empty or blank token is dropped |
| TelegramBot.Bot.LoadAdminIds | society-bot-python/services/telegram_bot.py:46-62 | An empty variable leaves the set as it was; any other value replaces it with the parsed set |
| TelegramBot.Bot.IsAdmin | society-bot-python/services/telegram_bot.py:65-75 | is_admin: membership of the administrator set; see the AdminsNonNegative row |
| TelegramBot.AdminsNonNegative | society-bot-python/services/telegram_bot.py:65-75 | `is_admin` is set membership, and no negative id is ever an administrator |
| TelegramBot.Bot.StartCommand | society-bot-python/services/telegram_bot.py:145-161 | Anyone gets the welcome reply |
| TelegramBot.Bot.HelpCommand | society-bot-python/services/telegram_bot.py:164-191 | Anyone gets the help reply; it lists the admin commands exactly when the user is an administrator, and such a user's id is non-negative |
| TelegramBot.Bot.AdminOnly | society-bot-python/services/telegram_bot.py:194-210 | The user may go on exactly when they are an administrator; otherwise the denial is the one reply |
| TelegramBot.Bot.TableCommand | society-bot-python/services/telegram_bot.py:213-216 | A non-admin gets only the denial; an admin gets handle_table_command's failure, empty-ledger or table reply; nothing changes |
| TelegramBot.Bot.TodayCommand | society-bot-python/services/telegram_bot.py:219-222 | A non-admin gets only the denial; an admin gets the failure reply or the count and total of the payments dated on the clock's day; nothing changes |
| TelegramBot.Bot.MonthCommand | society-bot-python/services/telegram_bot.py:225-228 | A non-admin gets only the denial; an admin gets the failure reply or the count and total of the payments in the clock's month and year; nothing changes |
| TelegramBot.Bot.MemberCommand | society-bot-python/services/telegram_bot.py:231-234 | A non-admin gets only the denial; an admin gets the usage, failure, no-records or history reply of handle_member_command; nothing changes |
| TelegramBot.Bot.ExportCommand | society-bot-python/services/telegram_bot.py:237-240 | A non-admin gets only the denial and no file is left; an admin gets handle_export_command's two replies, with the sheet laid out over all payments, and a file is left only when its removal fails |
| TelegramBot.Bot.ResetCommand | society-bot-python/services/telegram_bot.py:243-246 | A non-admin gets only the denial and the pending requests are unchanged; an admin gets handle_reset_command's replies and map updates; the store never changes |
| TelegramBot.Bot.ConfirmResetCommand | society-bot-python/services/telegram_bot.py:249-252 | A non-admin gets only the denial and neither the requests nor the store change; an admin's request is used up, and only a valid one empties the store, with the count from just before in the reply; otherwise the reply says why and the store is untouched |
| TelegramBot.Bot.StatsCommand | society-bot-python/services/telegram_bot.py:255-258 | A non-admin gets only the denial; an admin gets the failure, empty-ledger or count-and-total reply; nothing changes |
| TelegramBot.Classify | society-bot-python/services/telegram_bot.py:277-316 | A message that gets recorded has a valid name and a valid amount |
| TelegramBot.ReadPayment | society-bot-python/services/telegram_bot.py:277-316 | The handler's steps (strip, hyphen test, split, exactly two parts, strip and validate each) agree with the declarative classification for every text |
| TelegramBot.IgnoredIff | society-bot-python/services/telegram_bot.py:284-286 | A message is silently ignored exactly when it contains no hyphen |
| TelegramBot.TwoHyphensMalformed | society-bot-python/services/telegram_bot.py:288-296 | Two or more hyphens ("kamal-500-extra", "kamal--5") always get the invalid-format reply |
| TelegramBot.ClassifyStripped | society-bot-python/services/telegram_bot.py:277 | Surrounding whitespace does not change the outcome |
| TelegramBot.RecordedName | society-bot-python/services/telegram_bot.py:299-305 | A recorded name is 1 to 100 characters of the name ranges, with no hyphen, digit or whitespace |
| TelegramBot.ClassifyCanonical | society-bot-python/services/telegram_bot.py:299-337 | Sending back a recorded name and the amount as the success reply shows it records the same name and the same cents |
| TelegramBot.RecordedCents | society-bot-python/services/telegram_bot.py:318-322 | The cents stored for an accepted amount are at most 9999999999 |
| TelegramBot.SuccessText | society-bot-python/services/telegram_bot.py:331-337 | The success reply: the capitalised name, the amount with two decimals and the date as format_datetime gives it (the amount's rounding is under "## Left out") |
| TelegramBot.Bot.HandlePaymentMessage | society-bot-python/services/telegram_bot.py:265-347 | No text or no hyphen: silence and no insert. Malformed: the one format reply and no insert. Store failure: the failure reply and no insert. Otherwise exactly one row (next id, name, cents, sender, clock) is appended and the success text names it |
| Ledger.Store.Insert | society-bot-python/controllers/payment_controller.py:33-66 | On success exactly one row with the next id is appended and it becomes the newest; on failure nothing changes |
| Ledger.Store.ResetAll | society-bot-python/controllers/payment_controller.py:245-270 | Reports the row count from just before, empties the store and restarts ids; on failure nothing changes |
| Ledger.Store.LastPayments | society-bot-python/controllers/payment_controller.py:69-97 | min(limit, n) rows, newest first |
| Ledger.NewestFirst | society-bot-python/controllers/payment_controller.py:219-243 | All rows, in reverse insertion order |
| Ledger.Where | society-bot-python/controllers/payment_controller.py:184-185 | A WHERE filter: exactly the rows that satisfy the condition, and no more rows than there were |
| Ledger.WhereAppend | society-bot-python/controllers/payment_controller.py:184-185 | Filtering keeps the rows' order: filtering two runs and joining them is filtering the joined runs |
| Ledger.MatchingMember | society-bot-python/controllers/payment_controller.py:171-217 | Exactly the rows whose lower-cased name equals the lower-cased query |
| Ledger.PaidOn | society-bot-python/controllers/payment_controller.py:99-131 | Exactly the rows dated on the given calendar day |
| Ledger.PaidInMonth | society-bot-python/controllers/payment_controller.py:133-169 | Exactly the rows dated in the given month of the given year |
| Ledger.DayWithinMonth | society-bot-python/controllers/payment_controller.py:99-169 | Today's count and total never exceed this month's |
| Ledger.SumCentsStep | society-bot-python/routes/bot_routes.py:257-260 | The running total grows by one payment per step |
| BotRoutes.CapitalizeFirst | society-bot-python/routes/bot_routes.py:41-45 | Same length; first character upper-cased, the rest lower-cased |
| BotRoutes.CapitalizeAgree | society-bot-python/routes/bot_routes.py:41-45 | `capitalize_first` equals `capitalize_first_letter` on every text |
| BotRoutes.FormatShortDate | society-bot-python/routes/bot_routes.py:48-50 | format_short_date: always ten characters; the fields are in the ShortDateLayout row |
| BotRoutes.FormatFullDatetime | society-bot-python/routes/bot_routes.py:53-55 | format_full_datetime: always nineteen characters; the fields are in the FullDatetimeLayout row |
| BotRoutes.ShortDateLayout | society-bot-python/routes/bot_routes.py:48-50 | `YYYY-MM-DD`: 10 characters, each field the zero-padded component |
| BotRoutes.FullDatetimeLayout | society-bot-python/routes/bot_routes.py:53-55 | `YYYY-MM-DD HH:MM:SS`: the short date, then the zero-padded time |
| BotRoutes.DateLayoutsAgree | society-bot-python/routes/bot_routes.py:48-55 | The short date is the first 10 characters of the full one, and the reply date is its first 16 |
| BotRoutes.WholeRupees | society-bot-python/routes/bot_routes.py:84 | `:.0f` rounds to the nearest rupee, and a half goes to the even rupee |
| BotRoutes.IdColumn | society-bot-python/routes/bot_routes.py:82 | `str(id)` padded with spaces to at least 4 characters, never truncated |
| BotRoutes.NameColumn | society-bot-python/routes/bot_routes.py:83 | Always 10 characters: the first ≤10 characters of the name, then spaces |
| BotRoutes.AmountColumn | society-bot-python/routes/bot_routes.py:84 | "Rs." and the whole rupees, then spaces up to 9 characters; never truncated |
| BotRoutes.TableRowLayout | society-bot-python/routes/bot_routes.py:82-87 | A row is the id column, the name column, the amount and the short date, separated by a spaced vertical bar and ended by a newline, each piece at its position |
| BotRoutes.TableRowOneLine | society-bot-python/routes/bot_routes.py:87 | A row for a name without newlines is exactly one line |
| BotRoutes.TableRowsLines | society-bot-python/routes/bot_routes.py:81-87 | The table body has exactly one line per payment |
| BotRoutes.BuildTable | society-bot-python/routes/bot_routes.py:76-89 | The loop builds header, one row per payment in order, and the closing fence |
| BotRoutes.TableRowsStep | society-bot-python/routes/bot_routes.py:81-87 | One loop iteration appends the next payment's row |
| BotRoutes.Listed | society-bot-python/routes/bot_routes.py:192 | min(10, n) payments are listed |
| BotRoutes.MoreSuffix | society-bot-python/routes/bot_routes.py:197-198 | The "... and n-10 more payments" suffix appears exactly when n > 10 |
| BotRoutes.BulletLineCount | society-bot-python/routes/bot_routes.py:195 | Each bullet is exactly one line with one bullet mark |
| BotRoutes.BulletLinesCount | society-bot-python/routes/bot_routes.py:193-195 | k payments give exactly k bullet lines |
| BotRoutes.BuildMemberHistory | society-bot-python/routes/bot_routes.py:184-198 | Header with total and count, the first min(10, n) payments in stored order, then the suffix |
| BotRoutes.AppendBullets | society-bot-python/routes/bot_routes.py:192-195 | The loop appends one bullet per payment, in order |
| BotRoutes.BulletsStep | society-bot-python/routes/bot_routes.py:193-195 | One loop iteration appends the next payment's bullet |
| BotRoutes.BuildSheet | society-bot-python/routes/bot_routes.py:248-271 | Titles on row 1, payment i on row i+2, row n+2 blank, TOTAL on row n+3 with the sum of all amounts, and no other rows |
| BotRoutes.RowsStep | society-bot-python/routes/bot_routes.py:258-266 | One loop iteration puts the next row in place and keeps the earlier rows |
| BotRoutes.SummaryStep | society-bot-python/routes/bot_routes.py:269-271 | Writing the summary row after the data completes the layout |
| BotRoutes.ExportCaption | society-bot-python/routes/bot_routes.py:301-305 | The caption of the export: the record count and the total with two decimals |
| BotRoutes.ResetDone | society-bot-python/routes/bot_routes.py:396-400 | The reply after a reset, with the count of deleted records |
| BotRoutes.ConfirmationValid | society-bot-python/routes/bot_routes.py:381 | A confirmation goes ahead when the user has a non-zero request time less than 60 seconds old; see the ConfirmationWindow and ConfirmationUsedUp rows |
| BotRoutes.ConfirmationWindow | society-bot-python/routes/bot_routes.py:381 | A request is confirmable exactly while less than 60 seconds old; at exactly 60 seconds it has expired |
| BotRoutes.ConfirmationUsedUp | society-bot-python/routes/bot_routes.py:387-391 | Once a user's request is removed, a second confirmation finds nothing, and other users' requests are unchanged |
| BotRoutes.Routes.HandleTable | society-bot-python/routes/bot_routes.py:58-97 | Failure, empty-ledger and table replies, the table over the newest 20 payments |
| BotRoutes.Routes.HandleMember | society-bot-python/routes/bot_routes.py:153-206 | Usage reply without a name, failure reply, no-records reply, otherwise the history of the matching payments |
| BotRoutes.Routes.HandleExport | society-bot-python/routes/bot_routes.py:208-321 | The progress message first; nothing to export for an empty ledger; otherwise a sheet with the export layout over all payments and its caption, or the error reply; the temporary file is left behind only when its removal fails |
| BotRoutes.Routes.HandleReset | society-bot-python/routes/bot_routes.py:324-362 | With no records, the map is unchanged; otherwise the user's entry becomes `now` (replacing an earlier one) and the prompt carries the count and total |
| BotRoutes.Routes.HandleConfirmReset | society-bot-python/routes/bot_routes.py:365-407 | The user's entry is always removed. Only a valid one empties the store, and the reply carries the count from just before. Otherwise the store is untouched |
| BotRoutes.Routes.HandleStats | society-bot-python/routes/bot_routes.py:410-440 | Failure reply, empty-ledger reply, otherwise the count and total |
| BotRoutes.Routes.HandleToday | society-bot-python/routes/bot_routes.py:99-124 | The failure reply, or the number and the sum of the payments dated on the clock's calendar day |
| BotRoutes.Routes.HandleMonth | society-bot-python/routes/bot_routes.py:126-151 | The failure reply, or the number and the sum of the payments dated in the clock's month and year |
| Strings.SplitCount | society-bot-python/services/telegram_bot.py:289-292 | `split('-')` has one part more than there are hyphens |
| Strings.SplitAtSingle | society-bot-python/services/telegram_bot.py:289-300 | With exactly one hyphen, the two parts are what precedes and what follows it |
| Strings.JoinSplit | society-bot-python/services/telegram_bot.py:55 | Joining the parts of a split with the separator gives back the text |
| Strings.SplitJoin | society-bot-python/services/telegram_bot.py:55 | Splitting separator-free parts joined by the separator gives back the parts |
| Strings.CountStrip | society-bot-python/services/telegram_bot.py:277-285 | Stripping never removes a hyphen |
| Strings.StripIdempotent | society-bot-python/services/telegram_bot.py:277 | Stripping twice is stripping once |
| Strings.StripPadded | society-bot-python/services/telegram_bot.py:299-300 | Stripping removes exactly the surrounding whitespace |

## Left out

- Python's `float()` is modelled on a plain decimal grammar over ASCII: optional sign, digits, optional point and digits. Exponents, `inf`/`nan`, underscores and binary float rounding of any amount are not modelled. The model reads the exact decimal. The source's double can differ: a text with a digit only after hundreds of zeros, such as `0.000…001`, reads as 0.0 in the source and is rejected, while the model accepts it and records 0 cents; and a text with more than 17 significant digits can round across a half cent, or across 99999999.99, before the `DECIMAL(10,2)` column sees it.
- Validators.IsValidAmount: `float()` also reads non-ASCII decimal digits, so the source records `kamal-５００` (full-width digits) as 500. The model rejects such an amount, and Validators.NoDigitRejected holds only for ASCII digits.
- TelegramBot.SuccessText: the reply formats the parsed float with `f"{amount:.2f}"`, which rounds its binary value half to even. The model shows the stored cents, which the DECIMAL(10,2) column rounds half away from zero. They differ for some amounts with more than two decimals: `kamal-0.125` is stored as 0.13, but the source replies `Rs.0.12`.
- BotRoutes.BuildSheet: the source sums amounts as floats. The model sums exact cents.
- BotRoutes.Routes.HandleToday and BotRoutes.Routes.HandleMonth, and with them TelegramBot.Bot.TodayCommand and TelegramBot.Bot.MonthCommand: the reply keeps the count and the total, not the text. The text's date, month name (`MONTHNAME`), year and `:.2f` float formatting are not modelled.
- BotRoutes.Routes.HandleStats, and with it TelegramBot.Bot.StatsCommand: the reply keeps only the count and the total. The source's report also shows the number of distinct members, the average, the highest and the lowest payment; these are not modelled.
- BotRoutes.Routes.HandleReset, and with it TelegramBot.Bot.ResetCommand: the prompt keeps the count and total but not the number of distinct members.
- Case mapping: the model implements upper and lower case on ASCII and Latin-1, with `ÿ` upper-casing to `Ÿ` and `µ` to Greek capital mu. Characters outside Latin-1 keep their case, with one exception: `Ÿ` (U+0178) lower-cases to `ÿ`, as in Python. Multi-character mappings are not modelled: `ß`, which Python upper-cases (and title-cases) to two letters, is left as it is. That voids two rows for a name starting with `ß`: the source capitalises "ßabc" to "SSabc", five characters, against the same length that Validators.CapitalizeFirstLetter states, and capitalising again gives "Ssabc", against Validators.CapitalizeIdempotent.
- `str.isdigit()`: only ASCII digits are modelled. In the source, other decimal digits (full-width ones, say) are read by `int()` as ids, and digits such as superscripts pass `isdigit()` but make `int()` raise, which empties the set. Neither is modelled, so that `ValueError` path of `load_admin_ids` is unreachable in the model. Neither is the other `ValueError`: Python refuses to convert an all-digit token longer than 4300 digits, which empties the set, while the model keeps the token's value.
- Store ordering: `ORDER BY payment_date DESC` is modelled as reverse insertion order. That agrees with the source only while the database clock never goes back; the clock is not guaranteed to be monotonic, and after it is set back a new payment is not the newest by date. Ledger.Store.Insert's "it becomes the newest" rests on this. Payments inserted within the same second have no defined order in the source.
- Ledger.Store.Insert: failure is modelled as a failed INSERT, which changes nothing. When the INSERT succeeds but the SELECT that reads the row back fails, the transaction is rolled back, yet InnoDB does not give back the AUTO_INCREMENT value it used up; the source's next payment then gets id n+2 where the model gives n+1.
- Ledger.MatchingMember: equality of the model's lower-casing stands for the `utf8mb4_unicode_ci` collation, which also ignores accents. So `/member jose` finds "José" in the source but not in the model.
- Dates are restricted to years 1000–9999, so `%Y` is always four digits.
- The database, the chat API and the clock are outside the model:
  - Failures of database calls, of saving the workbook, of sending the document and of removing the temporary file are flags in the call's environment. Sending a plain message never fails.
  - The error reply of `/export` does not carry the exception's text.
  - Exceptions raised by the success path's formatting or sending after an insert are not modelled.
- Workbook styling, column widths, the file name and its timestamp are not modelled.
- /start and /help texts are kept as reply values (`Welcome`, `Help` with whether the admin section is shown).
- Routing updates to the command methods, `create_application`, `set_bot_commands`, `error_handler`, logging, `main.py`, `app.py` and the async runtime are not modelled. Handlers are taken to run one at a time.
- Reset request times are `real` seconds, as Python's float timestamps are. A request time of 0 counts as no request, as in the source.

## Notes on the source

- `is_valid_name` promises letters only, but its range U+00C0–U+024F holds `×` (U+00D7) and `÷` (U+00F7), which are not letters. So "k×mal" and "÷" are valid names (`Validators.NameExamples`).
- `is_valid_name` uses `re.match` with `$`, which also matches before a final newline. So "kamal\n" is a valid name. Names reaching the check are always stripped, so this never shows in recorded payments (`TelegramBot.RecordedName`).
- A positive amount below half a cent, such as "0.001", passes `is_valid_amount`. It is stored as 0.00 (`Validators.SubCentParsed`).
- The payment handler is not admin-gated: any sender may record payments.
