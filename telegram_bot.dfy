/** services/telegram_bot.py: the administrator set, the admin gate in front
    of the report commands, and the free-text handler that records a payment
    from a "name-amount" message. */
module TelegramBot {
  import opened Options
  import opened Strings
  import opened Ledger
  import opened Chat
  import opened Validators
  import opened BotRoutes

  const DENIED := "🔒 This command is only available to administrators."
  const INVALID_FORMAT := "❌ Invalid format. Use: name-amount (example: kamal-500)"
  const RECORD_FAILED := "❌ Failed to record payment. Please try again."

  // ---------------------------------------------------------------------
  // The payment message, read declaratively

  /** What handle_payment_message makes of a text: no hyphen (ignored), a
      malformed message (the format reply), or a member and an amount. */
  datatype Classification = NoHyphen | Malformed | Wellformed(name: string, amount: string)

  /** The message stripped must hold exactly one hyphen; what lies on each
      side of it, stripped, must be a valid name and a valid amount. */
  function Classify(text: string): (c: Classification)
    ensures c.Wellformed? ==> IsValidName(c.name) && IsValidAmount(c.amount)
  {
    Stripped(Strip(text))
  }

  /** Classify, once the message is stripped. */
  function Stripped(t: string): (c: Classification)
    ensures c.Wellformed? ==> IsValidName(c.name) && IsValidAmount(c.amount)
  {
    if '-' !in t then NoHyphen
    else if Count(t, '-') != 1 then Malformed
    else
      var i := IndexOf(t, '-');
      Judge(Strip(t[..i]), Strip(t[i + 1..]))
  }

  /** The two sides of the hyphen, already stripped. */
  function Judge(name: string, amount: string): Classification {
    if IsValidName(name) && IsValidAmount(amount) then Wellformed(name, amount) else Malformed
  }

  /** The cents recorded for a well-formed message: at most 9999999999. */
  function RecordedCents(c: Classification): (cents: nat)
    requires c.Wellformed? && IsValidAmount(c.amount)
    ensures cents <= MAX_CENTS
  {
    ValidAmountCents(c.amount);
    AmountCents(c.amount)
  }

  /** A message is ignored exactly when it has no hyphen at all. */
  lemma IgnoredIff(text: string)
    ensures Classify(text) == NoHyphen <==> '-' !in text
  {
    CountStrip(text, '-');
  }

  /** Two hyphens or more never record anything: "kamal-500-extra", and
      negative amounts such as "kamal--5", get the format reply. */
  lemma TwoHyphensMalformed(text: string)
    requires Count(text, '-') >= 2
    ensures Classify(text) == Malformed
  {
    CountStrip(text, '-');
  }

  /** Whitespace around the message does not matter. */
  lemma ClassifyStripped(text: string)
    ensures Classify(Strip(text)) == Classify(text)
  {
    StripIdempotent(text);
  }

  /** A recorded name is free of hyphens, digits and whitespace: it is one to
      a hundred characters of the name ranges (letters, and the signs `×` and
      `÷` that the ranges also hold). */
  lemma RecordedName(text: string)
    requires Classify(text).Wellformed?
    ensures var name := Classify(text).name;
      0 < |name| <= MAX_NAME_LENGTH && AllNameChars(name) && '-' !in name
  {
    var t := Strip(text);
    var name := Strip(t[..IndexOf(t, '-')]);
    assert Classify(text).name == name;
    ValidNameIff(name);
    forall i | 0 <= i < |name|
      ensures name[i] != '-'
    {
      assert IsNameChar(name[i]);
    }
  }

  /** Typing back what the success reply shows (the name, a hyphen and the
      two-decimal amount) records the same name and amount again. */
  lemma ClassifyCanonical(name: string, c: nat)
    requires 0 < |name| <= MAX_NAME_LENGTH && AllNameChars(name)
    requires 0 < c <= MAX_CENTS
    ensures Classify(name + "-" + CentsText(c)) == Wellformed(name, CentsText(c))
    ensures RecordedCents(Wellformed(name, CentsText(c))) == c
  {
    var amount := CentsText(c);
    NameEnds(name);
    AmountEnds(c);
    HyphenJoin(name, amount);
    ValidNameIff(name);
    CentsTextRoundTrip(c);
  }

  /** Two stripped, hyphen-free texts joined by one hyphen split back into
      themselves. */
  lemma HyphenJoin(a: string, b: string)
    requires a != [] && b != [] && '-' !in a && '-' !in b
    requires !IsSpace(a[0]) && !IsSpace(a[|a| - 1]) && !IsSpace(b[0]) && !IsSpace(b[|b| - 1])
    ensures var t := a + "-" + b;
      && Strip(t) == t && Count(t, '-') == 1 && IndexOf(t, '-') == |a|
      && Strip(t[..|a|]) == a && Strip(t[|a| + 1..]) == b
  {
    var t := a + ['-'] + b;
    assert a + "-" + b == t;
    assert t[0] == a[0] && t[|t| - 1] == b[|b| - 1];
    StripUnchanged(t);
    HyphenCount(a, b);
    IndexOfAfter(a, '-', b);
    assert t[..|a|] == a && t[|a| + 1..] == b;
    StripUnchanged(a);
    StripUnchanged(b);
  }

  /** One hyphen between two hyphen-free texts is the only one. */
  lemma HyphenCount(a: string, b: string)
    requires '-' !in a && '-' !in b
    ensures Count(a + ['-'] + b, '-') == 1
  {
    assert a + ['-'] + b == a + (['-'] + b);
    CountAppend(a, ['-'] + b, '-');
    CountAppend(['-'], b, '-');
    assert Count(['-'], '-') == 1;
  }

  /** A name of name-range characters has no hyphen and does not start or end with
      whitespace. */
  lemma NameEnds(name: string)
    requires 0 < |name| && AllNameChars(name)
    ensures '-' !in name && !IsSpace(name[0]) && !IsSpace(name[|name| - 1])
  {
    forall i | 0 <= i < |name|
      ensures name[i] != '-'
    {
      assert IsNameChar(name[i]);
    }
  }

  /** A two-decimal amount has no hyphen and starts and ends with a digit. */
  lemma AmountEnds(c: nat)
    ensures var s := CentsText(c);
      s != [] && '-' !in s && IsDigit(s[0]) && IsDigit(s[|s| - 1])
  {
    var whole, cents := NatToString(c / 100), TwoDigits(c % 100);
    var s := CentsText(c);
    assert s == whole + "." + cents;
    NotInDigits(whole, '-');
    NotInDigits(cents, '-');
    assert s[0] == whole[0] && s[|s| - 1] == cents[1];
  }

  /** The parsing steps of handle_payment_message: strip, look for a hyphen,
      split on it, demand two parts, strip and check each. */
  method ReadPayment(raw: string) returns (outcome: Classification)
    ensures outcome == Classify(raw)
  {
    var text := Strip(raw);
    if '-' !in text {
      return NoHyphen;
    }
    var parts := Split(text, '-');
    SplitCount(text, '-');
    if |parts| != 2 {
      return Malformed;
    }
    SplitAtSingle(text, '-');
    var name := Strip(parts[0]);
    var amount := Strip(parts[1]);
    if !IsValidName(name) || !IsValidAmount(amount) {
      return Malformed;
    }
    outcome := Wellformed(name, amount);
  }

  /** The reply to a recorded payment. */
  function SuccessText(p: Payment): string
    requires p.paymentDate.Valid()
  {
    "✅ Payment recorded successfully\nMember: " + CapitalizeFirstLetter(p.memberName)
    + "\nAmount: Rs." + CentsText(p.cents) + "\nDate: " + FormatDatetime(p.paymentDate)
  }

  // ---------------------------------------------------------------------
  // The bot

  class Bot {
    /** ADMIN_IDS. */
    var adminIds: set<int>
    /** The payment controller. */
    const store: Store
    /** The report handlers of routes/bot_routes.py, over the same store. */
    const routes: Routes

    ghost predicate Valid()
      reads this, store
    {
      && store.Valid()
      && routes.store == store
      && (forall id :: id in adminIds ==> id >= 0)
    }

    constructor ()
      ensures Valid() && fresh(store) && fresh(routes)
      ensures adminIds == {} && store.records == [] && routes.resetConfirmations == map[]
    {
      adminIds := {};
      var s := new Store();
      store := s;
      routes := new Routes(s);
    }

    /** load_admin_ids, given `os.getenv('ADMIN_IDS', '')`: an empty value
        leaves the set as it was; any other value replaces it. */
    method LoadAdminIds(value: string)
      requires Valid()
      modifies this
      ensures Valid()
      ensures value == [] ==> adminIds == old(adminIds)
      ensures value != [] ==> adminIds == ParseAdminIds(value)
    {
      if value != [] {
        adminIds := ParseAdminIds(value);
      }
    }

    /** is_admin. */
    predicate IsAdmin(user: int)
      reads this
    {
      user in adminIds
    }

    /** handle_payment_message. `raw` is the message text, `None` when the
        update carries none; the reply is `None` when the bot stays silent. */
    method HandlePaymentMessage(raw: Option<string>, user: int, env: Env) returns (reply: Option<Reply>)
      requires Valid() && env.clock.Valid()
      modifies store
      ensures Valid()
      ensures raw.None? || raw.value == [] || Classify(raw.value) == NoHyphen ==>
        reply == None && store.records == old(store.records) && store.nextId == old(store.nextId)
      ensures raw.Some? && raw.value != [] && Classify(raw.value) == Malformed ==>
        reply == Some(Message(INVALID_FORMAT))
        && store.records == old(store.records) && store.nextId == old(store.nextId)
      ensures raw.Some? && raw.value != [] && Classify(raw.value).Wellformed? && env.storeFails ==>
        reply == Some(Message(RECORD_FAILED))
        && store.records == old(store.records) && store.nextId == old(store.nextId)
      ensures raw.Some? && raw.value != [] && Classify(raw.value).Wellformed? && !env.storeFails ==>
        var c := Classify(raw.value);
        var p := Payment(old(store.nextId), c.name, RecordedCents(c), user, env.clock);
        && store.records == old(store.records) + [p]
        && store.nextId == old(store.nextId) + 1
        && reply == Some(Message(SuccessText(p)))
    {
      if raw.None? || raw.value == [] {
        return None;
      }
      var outcome := ReadPayment(raw.value);
      if outcome.NoHyphen? {
        return None;
      }
      if outcome.Malformed? {
        return Some(Message(INVALID_FORMAT));
      }
      var cents := RecordedCents(outcome);
      var payment := store.Insert(outcome.name, cents, user, env.clock, env.storeFails);
      if payment.None? {
        return Some(Message(RECORD_FAILED));
      }
      reply := Some(Message(SuccessText(payment.value)));
    }

    /** start_command: the welcome text, to anyone. */
    method StartCommand() returns (replies: seq<Reply>)
      ensures replies == [Welcome]
    {
      replies := [Welcome];
    }

    /** help_command: the help text, with the admin commands listed exactly
        when the user is an administrator. */
    method HelpCommand(user: int) returns (replies: seq<Reply>)
      requires Valid()
      ensures replies == [Reply.Help(IsAdmin(user))]
      ensures replies[0].withAdminCommands ==> user >= 0
    {
      replies := [Reply.Help(IsAdmin(user))];
    }

    /** admin_only: whether the user may go on; when not, the denial is the
        reply. */
    method AdminOnly(user: int) returns (allowed: bool, denial: seq<Reply>)
      ensures allowed <==> user in adminIds
      ensures allowed ==> denial == []
      ensures !allowed ==> denial == [Message(DENIED)]
    {
      allowed := IsAdmin(user);
      denial := if allowed then [] else [Message(DENIED)];
    }

    /** table_command: handle_table_command for an administrator. Nothing
        changes (no `modifies`). */
    method TableCommand(user: int, env: Env) returns (replies: seq<Reply>)
      requires Valid()
      ensures !IsAdmin(user) ==> replies == [Message(DENIED)]
      ensures IsAdmin(user) && env.storeFails ==> replies == [Message(TABLE_FAILED)]
      ensures IsAdmin(user) && !env.storeFails && store.records == [] ==> replies == [Message(NO_PAYMENTS)]
      ensures IsAdmin(user) && !env.storeFails && store.records != [] ==>
        replies == [Message(TABLE_HEADER + TableRows(store.LastPayments(20)) + "```")]
    {
      var allowed, denial := AdminOnly(user);
      if !allowed {
        return denial;
      }
      var reply := routes.HandleTable(env);
      replies := [reply];
    }

    /** today_command: handle_today_command for an administrator. */
    method TodayCommand(user: int, env: Env) returns (replies: seq<Reply>)
      requires Valid()
      ensures !IsAdmin(user) ==> replies == [Message(DENIED)]
      ensures IsAdmin(user) && env.storeFails ==> replies == [Message(TODAY_FAILED)]
      ensures IsAdmin(user) && !env.storeFails ==>
        replies == [TodayReport(|PaidOn(store.records, env.clock)|, SumCents(PaidOn(store.records, env.clock)))]
    {
      var allowed, denial := AdminOnly(user);
      if !allowed {
        return denial;
      }
      var reply := routes.HandleToday(env);
      replies := [reply];
    }

    /** month_command: handle_month_command for an administrator. */
    method MonthCommand(user: int, env: Env) returns (replies: seq<Reply>)
      requires Valid()
      ensures !IsAdmin(user) ==> replies == [Message(DENIED)]
      ensures IsAdmin(user) && env.storeFails ==> replies == [Message(MONTH_FAILED)]
      ensures IsAdmin(user) && !env.storeFails ==>
        replies == [MonthReport(|PaidInMonth(store.records, env.clock)|, SumCents(PaidInMonth(store.records, env.clock)))]
    {
      var allowed, denial := AdminOnly(user);
      if !allowed {
        return denial;
      }
      var reply := routes.HandleMonth(env);
      replies := [reply];
    }

    /** member_command: handle_member_command for an administrator. */
    method MemberCommand(args: seq<string>, user: int, env: Env) returns (replies: seq<Reply>)
      requires Valid()
      ensures !IsAdmin(user) ==> replies == [Message(DENIED)]
      ensures IsAdmin(user) && args == [] ==> replies == [Message(MEMBER_USAGE)]
      ensures IsAdmin(user) && args != [] && env.storeFails ==> replies == [Message(MEMBER_FAILED)]
      ensures IsAdmin(user) && args != [] && !env.storeFails ==>
        var ps := store.MemberPayments(args[0]);
        && (ps == [] ==> replies == [Message("❌ No payment records found for member: " + args[0])])
        && (ps != [] ==> replies == [Message(MemberHeader(args[0], SumCents(ps), |ps|)
                                             + BulletLines(ps[..Listed(|ps|)]) + MoreSuffix(|ps|))])
    {
      var allowed, denial := AdminOnly(user);
      if !allowed {
        return denial;
      }
      var reply := routes.HandleMember(args, env);
      replies := [reply];
    }

    /** export_command: handle_export_command for an administrator. */
    method ExportCommand(user: int, env: Env) returns (replies: seq<Reply>, fileLeft: bool)
      requires Valid()
      ensures !IsAdmin(user) ==> replies == [Message(DENIED)] && !fileLeft
      ensures IsAdmin(user) ==> |replies| == 2 && replies[0] == Message(EXPORT_STARTED)
      ensures IsAdmin(user) && env.storeFails ==> replies[1] == ExportError
      ensures IsAdmin(user) && !env.storeFails && store.records == [] ==> replies[1] == Message(NOTHING_TO_EXPORT)
      ensures IsAdmin(user) && !env.storeFails && store.records != [] && (env.saveFails || env.sendFails) ==>
        replies[1] == ExportError
      ensures IsAdmin(user) && !env.storeFails && store.records != [] && !env.saveFails && !env.sendFails ==>
        && replies[1].ExportDocument?
        && ExportLayout(replies[1].sheet, store.AllPayments(), SumCents(store.AllPayments()))
        && replies[1].caption == ExportCaption(|store.records|, SumCents(store.AllPayments()))
      ensures fileLeft <==>
        IsAdmin(user) && !env.storeFails && store.records != [] && !env.saveFails && env.removeFails
    {
      var allowed, denial := AdminOnly(user);
      if !allowed {
        return denial, false;
      }
      replies, fileLeft := routes.HandleExport(env);
    }

    /** reset_command: handle_reset_command for an administrator. Only the
        pending requests may change; the store is not in the frame. */
    method ResetCommand(user: int, env: Env) returns (replies: seq<Reply>)
      requires Valid()
      modifies routes
      ensures Valid()
      ensures !IsAdmin(user) ==>
        replies == [Message(DENIED)] && routes.resetConfirmations == old(routes.resetConfirmations)
      ensures IsAdmin(user) && env.storeFails ==>
        && replies == [Message(RESET_REQUEST_FAILED)]
        && routes.resetConfirmations == old(routes.resetConfirmations)
      ensures IsAdmin(user) && !env.storeFails && store.records == [] ==>
        && replies == [Message(NOTHING_TO_DELETE)]
        && routes.resetConfirmations == old(routes.resetConfirmations)
      ensures IsAdmin(user) && !env.storeFails && store.records != [] ==>
        && replies == [ResetPrompt(|store.records|, SumCents(store.records))]
        && routes.resetConfirmations == old(routes.resetConfirmations)[user := env.now]
    {
      var allowed, denial := AdminOnly(user);
      if !allowed {
        return denial;
      }
      var reply := routes.HandleReset(user, env);
      replies := [reply];
    }

    /** confirm_reset_command: handle_confirm_reset_command for an
        administrator; a non-administrator's pending request is left alone. */
    method ConfirmResetCommand(user: int, env: Env) returns (replies: seq<Reply>)
      requires Valid()
      modifies routes, store
      ensures Valid()
      ensures !IsAdmin(user) ==>
        && replies == [Message(DENIED)]
        && routes.resetConfirmations == old(routes.resetConfirmations)
        && store.records == old(store.records) && store.nextId == old(store.nextId)
      ensures IsAdmin(user) ==> routes.resetConfirmations == old(routes.resetConfirmations) - {user}
      ensures IsAdmin(user) && !ConfirmationValid(old(routes.resetConfirmations), user, env.now) ==>
        && replies == [Message(NO_VALID_REQUEST)]
        && store.records == old(store.records) && store.nextId == old(store.nextId)
      ensures IsAdmin(user) && ConfirmationValid(old(routes.resetConfirmations), user, env.now) && env.storeFails ==>
        && replies == [Message(RESET_FAILED)]
        && store.records == old(store.records) && store.nextId == old(store.nextId)
      ensures IsAdmin(user) && ConfirmationValid(old(routes.resetConfirmations), user, env.now) && !env.storeFails ==>
        && replies == [Message(ResetDone(|old(store.records)|))]
        && store.records == [] && store.nextId == 1
    {
      var allowed, denial := AdminOnly(user);
      if !allowed {
        return denial;
      }
      var reply := routes.HandleConfirmReset(user, env);
      replies := [reply];
    }

    /** stats_command: handle_stats_command for an administrator. */
    method StatsCommand(user: int, env: Env) returns (replies: seq<Reply>)
      requires Valid()
      ensures !IsAdmin(user) ==> replies == [Message(DENIED)]
      ensures IsAdmin(user) && env.storeFails ==> replies == [Message(STATS_FAILED)]
      ensures IsAdmin(user) && !env.storeFails && store.records == [] ==> replies == [Message(NO_PAYMENTS)]
      ensures IsAdmin(user) && !env.storeFails && store.records != [] ==>
        replies == [StatsReport(|store.records|, SumCents(store.records))]
    {
      var allowed, denial := AdminOnly(user);
      if !allowed {
        return denial;
      }
      var reply := routes.HandleStats(env);
      replies := [reply];
    }
  }

  /** No negative id is ever an administrator. */
  lemma AdminsNonNegative(bot: Bot, user: int)
    requires bot.Valid() && bot.IsAdmin(user)
    ensures user >= 0
  {
  }
}
