/** routes/bot_routes.py: the administrators' commands. The reports are laid
    out here; the two-step reset keeps its pending requests in `Routes`. */
module BotRoutes {
  import opened Options
  import opened Strings
  import opened Ledger
  import opened Chat
  import opened Validators

  /** RESET_TIMEOUT: seconds a /reset request stays confirmable. */
  const RESET_TIMEOUT: real := 60.0

  // ---------------------------------------------------------------------
  // Formatting helpers

  /** capitalize_first: the first character upper-cased, the rest
      lower-cased, the empty string left alone. */
  function CapitalizeFirst(text: string): (r: string)
    ensures |r| == |text|
    ensures text != [] ==> r[0] == UpperChar(text[0])
    ensures forall i :: 1 <= i < |text| ==> r[i] == LowerChar(text[i])
  {
    seq(|text|, i requires 0 <= i < |text| => if i == 0 then UpperChar(text[0]) else LowerChar(text[i]))
  }

  /** The route's helper and the message handler's capitalize the same way. */
  lemma CapitalizeAgree(text: string)
    ensures CapitalizeFirst(text) == CapitalizeFirstLetter(text)
  {
    var a, b := CapitalizeFirst(text), CapitalizeFirstLetter(text);
    assert |a| == |b|;
    forall i | 0 <= i < |a|
      ensures a[i] == b[i]
    {
    }
  }

  /** format_short_date: `%Y-%m-%d`. */
  function FormatShortDate(dt: DateTime): (r: string)
    requires dt.Valid()
    ensures |r| == 10
  {
    NatToStringFourDigits(dt.year);
    NatToString(dt.year) + "-" + TwoDigits(dt.month) + "-" + TwoDigits(dt.day)
  }

  /** The short date is ten characters, each field the zero-padded digits of
      its value, separated by hyphens. */
  lemma ShortDateLayout(dt: DateTime)
    requires dt.Valid()
    ensures var r := FormatShortDate(dt);
      && r[4] == '-' && r[7] == '-'
      && IsDigits(r[..4]) && DigitsValue(r[..4]) == dt.year
      && IsDigits(r[5..7]) && DigitsValue(r[5..7]) == dt.month
      && IsDigits(r[8..]) && DigitsValue(r[8..]) == dt.day
  {
    NatToStringFourDigits(dt.year);
    var y, m, d := NatToString(dt.year), TwoDigits(dt.month), TwoDigits(dt.day);
    var r := FormatShortDate(dt);
    assert r == y + "-" + m + "-" + d;
    assert r[..4] == y && r[5..7] == m && r[8..] == d;
  }

  /** format_full_datetime: `%Y-%m-%d %H:%M:%S`. */
  function FormatFullDatetime(dt: DateTime): (r: string)
    requires dt.Valid()
    ensures |r| == 19
  {
    FormatShortDate(dt) + " " + TwoDigits(dt.hour) + ":" + TwoDigits(dt.minute) + ":" + TwoDigits(dt.second)
  }

  /** The full date is nineteen characters: the short date, a space, then
      hours, minutes and seconds as zero-padded digits separated by colons. */
  lemma FullDatetimeLayout(dt: DateTime)
    requires dt.Valid()
    ensures var r := FormatFullDatetime(dt);
      && r[..10] == FormatShortDate(dt)
      && r[10] == ' ' && r[13] == ':' && r[16] == ':'
      && IsDigits(r[11..13]) && DigitsValue(r[11..13]) == dt.hour
      && IsDigits(r[14..16]) && DigitsValue(r[14..16]) == dt.minute
      && IsDigits(r[17..]) && DigitsValue(r[17..]) == dt.second
  {
    var h, m, s := TwoDigits(dt.hour), TwoDigits(dt.minute), TwoDigits(dt.second);
    var r := FormatFullDatetime(dt);
    assert r == FormatShortDate(dt) + " " + h + ":" + m + ":" + s;
    assert r[..10] == FormatShortDate(dt);
    assert r[11..13] == h && r[14..16] == m && r[17..] == s;
  }

  /** The three date layouts of the bot agree: the short date and the
      minute-precision date of the payment reply are prefixes of the full one. */
  lemma DateLayoutsAgree(dt: DateTime)
    requires dt.Valid()
    ensures FormatShortDate(dt) == FormatFullDatetime(dt)[..10]
    ensures FormatDatetime(dt) == FormatFullDatetime(dt)[..16]
  {
    NatToStringFourDigits(dt.year);
    var full := FormatFullDatetime(dt);
    var short := FormatShortDate(dt);
    assert short == NatToString(dt.year) + "-" + TwoDigits(dt.month) + "-" + TwoDigits(dt.day);
    assert full == short + " " + TwoDigits(dt.hour) + ":" + TwoDigits(dt.minute) + ":" + TwoDigits(dt.second);
    assert full[..16] == short + " " + TwoDigits(dt.hour) + ":" + TwoDigits(dt.minute);
  }

  // ---------------------------------------------------------------------
  // /table

  const TABLE_HEADER: string :=
    "📊 *Last 20 Payments*\n\n```\nID   | Member     | Amount    | Date\n-----+------------+-----------+------------\n"

  /** `f"{amount:.0f}"` of a two-decimal amount: the nearest whole number of
      rupees, a tie going to the even one. */
  function WholeRupees(cents: nat): (r: nat)
    ensures -50 <= 100 * r - cents <= 50
    ensures cents % 100 == 50 ==> r % 2 == 0
    ensures cents % 100 != 50 ==> -50 < 100 * r - cents < 50
  {
    var q, rem := cents / 100, cents % 100;
    if rem > 50 || (rem == 50 && q % 2 == 1) then q + 1 else q
  }

  /** `str(payment['id']).ljust(4)`. */
  function IdColumn(id: nat): (r: string)
    ensures |r| >= 4 && |r| >= |NatToString(id)| && r[..|NatToString(id)|] == NatToString(id)
    ensures forall i :: |NatToString(id)| <= i < |r| ==> r[i] == ' '
  {
    LJust(NatToString(id), 4)
  }

  /** `str(payment['member_name'])[:10].ljust(10)`: always ten characters,
      the name cut to ten and padded with spaces. */
  function NameColumn(name: string): (r: string)
    ensures |r| == 10
    ensures var k := if |name| < 10 then |name| else 10;
      r[..k] == name[..k] && forall i :: k <= i < 10 ==> r[i] == ' '
  {
    LJust(Take(name, 10), 10)
  }

  /** `f"Rs.{amount:.0f}".ljust(9)`. */
  function AmountColumn(cents: nat): (r: string)
    ensures var s := "Rs." + NatToString(WholeRupees(cents));
      && |r| == (if |s| < 9 then 9 else |s|)
      && r[..|s|] == s
      && forall i :: |s| <= i < |r| ==> r[i] == ' '
  {
    LJust("Rs." + NatToString(WholeRupees(cents)), 9)
  }

  /** One line of the table. */
  function TableRow(p: Payment): string
    requires p.paymentDate.Valid()
  {
    IdColumn(p.id) + " | " + NameColumn(p.memberName) + " | " + AmountColumn(p.cents) + " | "
    + FormatShortDate(p.paymentDate) + "\n"
  }

  predicate AllDatesValid(ps: seq<Payment>) {
    forall i :: 0 <= i < |ps| ==> ps[i].paymentDate.Valid()
  }

  /** The table lines of `ps`, in order. */
  function TableRows(ps: seq<Payment>): string
    requires AllDatesValid(ps)
  {
    if ps == [] then [] else TableRows(ps[..|ps| - 1]) + TableRow(ps[|ps| - 1])
  }

  /** Where each column of a row sits: the id column, never cut, then the
      name column at a fixed offset from it, then the amount, then the date
      just before the line break. */
  lemma TableRowLayout(p: Payment)
    requires p.paymentDate.Valid()
    ensures var row, k := TableRow(p), |IdColumn(p.id)|;
      && row[..k] == IdColumn(p.id)
      && row[k..k + 3] == " | "
      && row[k + 3..k + 13] == NameColumn(p.memberName)
      && row[k + 13..k + 16] == " | "
      && row[k + 16..k + 16 + 3] == "Rs."
      && row[|row| - 14..|row| - 11] == " | "
      && row[|row| - 11..|row| - 1] == FormatShortDate(p.paymentDate)
      && row[|row| - 1] == '\n'
  {
    RowShape(IdColumn(p.id), NameColumn(p.memberName), AmountColumn(p.cents), FormatShortDate(p.paymentDate));
  }

  lemma RowShape(id: string, name: string, amount: string, date: string)
    requires |name| == 10 && |amount| >= 3 && |date| == 10
    ensures var row, k := id + " | " + name + " | " + amount + " | " + date + "\n", |id|;
      && row[..k] == id
      && row[k..k + 3] == " | "
      && row[k + 3..k + 13] == name
      && row[k + 13..k + 16] == " | "
      && row[k + 16..k + 19] == amount[..3]
      && row[|row| - 14..|row| - 11] == " | "
      && row[|row| - 11..|row| - 1] == date
      && row[|row| - 1] == '\n'
  {
    var row := id + " | " + name + " | " + amount + " | " + date + "\n";
    var tail := " | " + date + "\n";
    assert row == id + " | " + name + " | " + amount + tail;
    assert row[|row| - 14..] == tail;
  }

  /** With names free of line breaks (every validated name), the table body
      has exactly one line per payment. */
  lemma {:induction false} TableRowsLines(ps: seq<Payment>)
    requires AllDatesValid(ps)
    requires forall i :: 0 <= i < |ps| ==> '\n' !in ps[i].memberName
    ensures Count(TableRows(ps), '\n') == |ps|
  {
    if ps != [] {
      var init, last := ps[..|ps| - 1], ps[|ps| - 1];
      TableRowsLines(init);
      CountAppend(TableRows(init), TableRow(last), '\n');
      TableRowOneLine(last);
    }
  }

  lemma TableRowOneLine(p: Payment)
    requires p.paymentDate.Valid() && '\n' !in p.memberName
    ensures Count(TableRow(p), '\n') == 1
  {
    var idText := NatToString(p.id);
    NotInDigits(idText, '\n');
    var id := IdColumn(p.id);
    assert '\n' !in id by {
      assert id == idText + id[|idText|..];
    }
    var name := NameColumn(p.memberName);
    assert '\n' !in name by {
      var k := if |p.memberName| < 10 then |p.memberName| else 10;
      assert name == p.memberName[..k] + name[k..];
    }
    var rupees := NatToString(WholeRupees(p.cents));
    NotInDigits(rupees, '\n');
    var amount := AmountColumn(p.cents);
    assert '\n' !in amount by {
      assert amount == "Rs." + rupees + amount[3 + |rupees|..];
    }
    ShortDatePlain(p.paymentDate);
    RowLineShape(id, name, amount, FormatShortDate(p.paymentDate));
  }

  lemma RowLineShape(id: string, name: string, amount: string, date: string)
    requires '\n' !in id && '\n' !in name && '\n' !in amount && '\n' !in date
    ensures Count(id + " | " + name + " | " + amount + " | " + date + "\n", '\n') == 1
  {
    var body := id + " | " + name + " | " + amount + " | " + date;
    assert '\n' !in body;
    assert id + " | " + name + " | " + amount + " | " + date + "\n" == body + "\n";
    assert Count("\n", '\n') == 1;
    CountAppend(body, "\n", '\n');
  }

  /** The /table message for a non-empty list of payments. */
  method BuildTable(ps: seq<Payment>) returns (message: string)
    requires AllDatesValid(ps)
    ensures message == TABLE_HEADER + TableRows(ps) + "```"
  {
    message := TABLE_HEADER;
    for i := 0 to |ps|
      invariant message == TABLE_HEADER + TableRows(ps[..i])
    {
      TableRowsStep(ps, i);
      message := message + TableRow(ps[i]);
    }
    assert ps[..|ps|] == ps;
    message := message + "```";
  }

  lemma TableRowsStep(ps: seq<Payment>, i: nat)
    requires AllDatesValid(ps) && i < |ps|
    ensures TABLE_HEADER + TableRows(ps[..i + 1]) == TABLE_HEADER + TableRows(ps[..i]) + TableRow(ps[i])
  {
    assert ps[..i + 1][..i] == ps[..i];
    assert TableRows(ps[..i + 1]) == TableRows(ps[..i]) + TableRow(ps[i]);
  }

  // ---------------------------------------------------------------------
  // /member

  /** The lines above the list of a member's payments. */
  function MemberHeader(name: string, totalCents: nat, count: nat): string {
    "👤 *Payment History: " + CapitalizeFirst(name) + "*\n\n"
    + "💰 Total Paid: *Rs." + CentsText(totalCents) + "*\n"
    + "📝 Total Payments: *" + NatToString(count) + "*\n\n"
    + "*Recent Payments:*\n"
  }

  /** `f"• Rs.{amount:.2f} on {date}\n"`. */
  function BulletLine(p: Payment): string
    requires p.paymentDate.Valid()
  {
    "• Rs." + CentsText(p.cents) + " on " + FormatShortDate(p.paymentDate) + "\n"
  }

  function BulletLines(ps: seq<Payment>): string
    requires AllDatesValid(ps)
  {
    if ps == [] then [] else BulletLines(ps[..|ps| - 1]) + BulletLine(ps[|ps| - 1])
  }

  /** The closing line for more than ten payments, empty otherwise. */
  function MoreSuffix(count: nat): (r: string)
    ensures r != [] <==> count > 10
  {
    if count > 10 then "\n_... and " + NatToString(count - 10) + " more payments_" else ""
  }

  /** The number of payments listed: at most ten. */
  function Listed(count: nat): (k: nat)
    ensures k <= 10 && k <= count && (k == count || k == 10)
  {
    if count < 10 then count else 10
  }

  /** Each listed payment is one bullet on a line of its own. */
  lemma {:induction false} BulletLinesCount(ps: seq<Payment>)
    requires AllDatesValid(ps)
    ensures Count(BulletLines(ps), '•') == |ps|
    ensures Count(BulletLines(ps), '\n') == |ps|
  {
    if ps != [] {
      var init, last := ps[..|ps| - 1], ps[|ps| - 1];
      BulletLinesCount(init);
      CountAppend(BulletLines(init), BulletLine(last), '•');
      CountAppend(BulletLines(init), BulletLine(last), '\n');
      BulletLineCount(last);
    }
  }

  lemma BulletLineCount(p: Payment)
    requires p.paymentDate.Valid()
    ensures Count(BulletLine(p), '•') == 1 && Count(BulletLine(p), '\n') == 1
  {
    CentsTextPlain(p.cents);
    ShortDatePlain(p.paymentDate);
    BulletShape(CentsText(p.cents), FormatShortDate(p.paymentDate));
  }

  lemma BulletShape(amount: string, date: string)
    requires '•' !in amount && '\n' !in amount && '•' !in date && '\n' !in date
    ensures var line := "• Rs." + amount + " on " + date + "\n";
      Count(line, '•') == 1 && Count(line, '\n') == 1
  {
    var middle := " Rs." + amount + " on " + date;
    assert '•' !in middle && '\n' !in middle;
    assert "• Rs." + amount + " on " + date + "\n" == "•" + (middle + "\n");
    assert Count("•", '•') == 1 && Count("\n", '\n') == 1;
    CountAppend(middle, "\n", '•');
    CountAppend(middle, "\n", '\n');
    CountAppend("•", middle + "\n", '•');
    CountAppend("•", middle + "\n", '\n');
  }

  /** An amount text holds digits and a point only. */
  lemma CentsTextPlain(c: nat)
    ensures '•' !in CentsText(c) && '\n' !in CentsText(c)
  {
    var whole, cents := NatToString(c / 100), TwoDigits(c % 100);
    NotInDigits(whole, '•');
    NotInDigits(whole, '\n');
    NotInDigits(cents, '•');
    NotInDigits(cents, '\n');
    assert CentsText(c) == whole + "." + cents;
  }

  /** A short date holds digits and hyphens only. */
  lemma ShortDatePlain(dt: DateTime)
    requires dt.Valid()
    ensures '•' !in FormatShortDate(dt) && '\n' !in FormatShortDate(dt)
  {
    var date := FormatShortDate(dt);
    ShortDateLayout(dt);
    NotInDigits(date[..4], '•');
    NotInDigits(date[5..7], '•');
    NotInDigits(date[8..], '•');
    NotInDigits(date[..4], '\n');
    NotInDigits(date[5..7], '\n');
    NotInDigits(date[8..], '\n');
    assert date == date[..4] + "-" + date[5..7] + "-" + date[8..];
  }

  /** The /member message for a non-empty list of a member's payments:
      the header with the total and the count, the first ten payments, and the
      closing line when there are more. */
  method BuildMemberHistory(name: string, ps: seq<Payment>) returns (message: string)
    requires AllDatesValid(ps)
    ensures message == MemberHeader(name, SumCents(ps), |ps|) + BulletLines(ps[..Listed(|ps|)]) + MoreSuffix(|ps|)
  {
    message := MemberHeader(name, SumCents(ps), |ps|);
    var recent := if |ps| < 10 then ps else ps[..10];
    assert recent == ps[..Listed(|ps|)];
    message := AppendBullets(message, recent);
    if |ps| > 10 {
      message := message + MoreSuffix(|ps|);
    } else {
      assert message + MoreSuffix(|ps|) == message;
    }
  }

  /** The loop over the listed payments: one bullet line each, in order. */
  method AppendBullets(header: string, ps: seq<Payment>) returns (message: string)
    requires AllDatesValid(ps)
    ensures message == header + BulletLines(ps)
  {
    message := header;
    for i := 0 to |ps|
      invariant message == header + BulletLines(ps[..i])
    {
      BulletsStep(header, ps, i);
      message := message + BulletLine(ps[i]);
    }
    assert ps[..|ps|] == ps;
  }

  lemma BulletsStep(header: string, ps: seq<Payment>, i: nat)
    requires AllDatesValid(ps) && i < |ps|
    ensures header + BulletLines(ps[..i + 1]) == header + BulletLines(ps[..i]) + BulletLine(ps[i])
  {
    assert ps[..i + 1][..i] == ps[..i];
    assert BulletLines(ps[..i + 1]) == BulletLines(ps[..i]) + BulletLine(ps[i]);
  }

  // ---------------------------------------------------------------------
  // /export

  const EXPORT_HEADERS: seq<string> := ["ID", "Member Name", "Amount (Rs.)", "Recorded By (User ID)", "Payment Date"]

  function HeaderRow(): Row {
    map[1 := Label(EXPORT_HEADERS[0]), 2 := Label(EXPORT_HEADERS[1]), 3 := Label(EXPORT_HEADERS[2]),
        4 := Label(EXPORT_HEADERS[3]), 5 := Label(EXPORT_HEADERS[4])]
  }

  /** One payment's cells: id, capitalised name, two-decimal amount, the
      recorder's id as text, the full date. */
  function DataRow(p: Payment): Row
    requires p.paymentDate.Valid()
  {
    map[1 := Number(p.id), 2 := Label(CapitalizeFirst(p.memberName)), 3 := Label(CentsText(p.cents)),
        4 := Label(IntToString(p.recordedBy)), 5 := Label(FormatFullDatetime(p.paymentDate))]
  }

  function SummaryRow(totalCents: nat): Row {
    map[1 := Label("TOTAL"), 3 := Label(CentsText(totalCents))]
  }

  /** The rows of the export sheet: the titles on row 1, payment `i` on row
      `i + 2`, a blank row, and `totalCents` on row `n + 3`; no other row. */
  ghost predicate ExportLayout(sheet: Sheet, ps: seq<Payment>, totalCents: nat)
    requires AllDatesValid(ps)
  {
    && (forall r :: r in sheet <==> r == 1 || 2 <= r <= |ps| + 1 || r == |ps| + 3)
    && sheet[1] == HeaderRow()
    && (forall i :: 0 <= i < |ps| ==> sheet[i + 2] == DataRow(ps[i]))
    && sheet[|ps| + 3] == SummaryRow(totalCents)
  }

  /** The data rows of the payments, in their order. */
  function DataRows(ps: seq<Payment>): (rows: seq<Row>)
    requires AllDatesValid(ps)
    ensures |rows| == |ps| && forall i :: 0 <= i < |ps| ==> rows[i] == DataRow(ps[i])
  {
    seq(|ps|, i requires 0 <= i < |ps| => DataRow(ps[i]))
  }

  /** The titles and the first `i` of `rows` are in place, and nothing else. */
  ghost predicate RowsUpTo(sheet: Sheet, rows: seq<Row>, i: nat)
    requires i <= |rows|
  {
    && (forall r :: r in sheet <==> r == 1 || 2 <= r <= i + 1)
    && sheet[1] == HeaderRow()
    && (forall j :: 0 <= j < i ==> sheet[j + 2] == rows[j])
  }

  lemma RowsStep(sheet: Sheet, rows: seq<Row>, i: nat)
    requires i < |rows| && RowsUpTo(sheet, rows, i)
    ensures RowsUpTo(sheet[i + 2 := rows[i]], rows, i + 1)
  {
  }

  lemma SummaryStep(sheet: Sheet, ps: seq<Payment>, totalCents: nat)
    requires AllDatesValid(ps) && RowsUpTo(sheet, DataRows(ps), |ps|)
    ensures ExportLayout(sheet[|ps| + 3 := SummaryRow(totalCents)], ps, totalCents)
  {
  }

  /** The worksheet of handle_export_command, and the total it accumulates. */
  method BuildSheet(ps: seq<Payment>) returns (sheet: Sheet, totalCents: nat)
    requires AllDatesValid(ps)
    ensures totalCents == SumCents(ps)
    ensures ExportLayout(sheet, ps, totalCents)
    ensures |ps| + 2 !in sheet
  {
    sheet := map[1 := HeaderRow()];
    totalCents := 0;
    var rows := DataRows(ps);
    for i := 0 to |ps|
      invariant totalCents == SumCents(ps[..i])
      invariant RowsUpTo(sheet, rows, i)
    {
      SumCentsStep(ps, i);
      totalCents := totalCents + ps[i].cents;
      RowsStep(sheet, rows, i);
      sheet := sheet[i + 2 := rows[i]];
    }
    assert ps[..|ps|] == ps;
    SummaryStep(sheet, ps, totalCents);
    sheet := sheet[|ps| + 3 := SummaryRow(totalCents)];
  }

  function ExportCaption(count: nat, totalCents: nat): string {
    "📊 Society Payments Export\n📝 Total Records: " + NatToString(count)
    + "\n💰 Total Amount: Rs." + CentsText(totalCents)
  }

  // ---------------------------------------------------------------------
  // Fixed replies

  const NO_PAYMENTS := "📭 No payment records found."
  const TABLE_FAILED := "❌ Error fetching payment records."
  const TODAY_FAILED := "❌ Error fetching today's total."
  const MONTH_FAILED := "❌ Error fetching monthly total."
  const MEMBER_USAGE := "❌ Please provide a member name.\nUsage: /member <name>"
  const MEMBER_FAILED := "❌ Error fetching member records."
  const EXPORT_STARTED := "📤 Generating Excel export..."
  const NOTHING_TO_EXPORT := "📭 No records to export."
  const NOTHING_TO_DELETE := "📭 No records to delete."
  const RESET_REQUEST_FAILED := "❌ Error processing reset request."
  const NO_VALID_REQUEST := "❌ No valid reset request found or it has expired.\nPlease use /reset first."
  const RESET_FAILED := "❌ Error executing reset."
  const STATS_FAILED := "❌ Error fetching statistics."

  function ResetDone(deleted: nat): string {
    "🗑️ *Reset Complete*\n\nSuccessfully deleted *" + NatToString(deleted)
    + "* payment records.\nThe database is now empty."
  }

  // ---------------------------------------------------------------------
  // The reset confirmation state machine

  /** A /confirm_reset at `now` goes ahead: the user has a request whose
      time is set (a zero time counts as none) and less than RESET_TIMEOUT
      seconds old. */
  predicate ConfirmationValid(pending: map<int, real>, user: int, now: real) {
    user in pending && pending[user] != 0.0 && now - pending[user] < RESET_TIMEOUT
  }

  /** A request is confirmable for strictly less than a minute: at exactly
      60 seconds it has expired, and a later /reset by the same user replaces
      the time it counts from. */
  lemma ConfirmationWindow(pending: map<int, real>, user: int, t: real, now: real)
    requires t != 0.0
    ensures ConfirmationValid(pending[user := t], user, now) <==> now < t + 60.0
    ensures !ConfirmationValid(pending[user := t], user, t + 60.0)
  {
  }

  /** A request is used up by the /confirm_reset that removes it: a second
      one at any time finds nothing, and other users' requests stay as they
      were. */
  lemma ConfirmationUsedUp(pending: map<int, real>, user: int, now: real, later: real)
    ensures !ConfirmationValid(pending - {user}, user, later)
    ensures forall other :: other != user ==>
      (ConfirmationValid(pending - {user}, other, now) <==> ConfirmationValid(pending, other, now))
  {
  }

  class Routes {
    /** reset_confirmations: the time of each user's pending /reset. */
    var resetConfirmations: map<int, real>
    /** The payment controller the handlers query. */
    const store: Store

    constructor (store: Store)
      ensures this.store == store && resetConfirmations == map[]
    {
      this.store := store;
      resetConfirmations := map[];
    }

    /** handle_table_command: the last 20 payments, newest first, as a table. */
    method HandleTable(env: Env) returns (reply: Reply)
      requires store.Valid()
      ensures env.storeFails ==> reply == Message(TABLE_FAILED)
      ensures !env.storeFails && store.records == [] ==> reply == Message(NO_PAYMENTS)
      ensures !env.storeFails && store.records != [] ==>
        reply == Message(TABLE_HEADER + TableRows(store.LastPayments(20)) + "```")
    {
      if env.storeFails {
        return Message(TABLE_FAILED);
      }
      var payments := store.LastPayments(20);
      if payments == [] {
        return Message(NO_PAYMENTS);
      }
      ValidStoreDates(store);
      var message := BuildTable(payments);
      reply := Message(message);
    }

    /** handle_today_command: the number and the total of the payments
        whose date is the clock's calendar day. */
    method HandleToday(env: Env) returns (reply: Reply)
      ensures env.storeFails ==> reply == Message(TODAY_FAILED)
      ensures !env.storeFails ==>
        reply == TodayReport(|PaidOn(store.records, env.clock)|, SumCents(PaidOn(store.records, env.clock)))
    {
      if env.storeFails {
        return Message(TODAY_FAILED);
      }
      var today := PaidOn(store.records, env.clock);
      reply := TodayReport(|today|, SumCents(today));
    }

    /** handle_month_command: the number and the total of the payments
        whose date falls in the clock's month of the clock's year. */
    method HandleMonth(env: Env) returns (reply: Reply)
      ensures env.storeFails ==> reply == Message(MONTH_FAILED)
      ensures !env.storeFails ==>
        reply == MonthReport(|PaidInMonth(store.records, env.clock)|, SumCents(PaidInMonth(store.records, env.clock)))
    {
      if env.storeFails {
        return Message(MONTH_FAILED);
      }
      var month := PaidInMonth(store.records, env.clock);
      reply := MonthReport(|month|, SumCents(month));
    }

    /** handle_member_command: the first argument names the member, matched
        without regard to case; the history lists at most ten payments. */
    method HandleMember(args: seq<string>, env: Env) returns (reply: Reply)
      requires store.Valid()
      ensures args == [] ==> reply == Message(MEMBER_USAGE)
      ensures args != [] && env.storeFails ==> reply == Message(MEMBER_FAILED)
      ensures args != [] && !env.storeFails ==>
        var ps := store.MemberPayments(args[0]);
        && (ps == [] ==> reply == Message("❌ No payment records found for member: " + args[0]))
        && (ps != [] ==> reply == Message(MemberHeader(args[0], SumCents(ps), |ps|)
                                          + BulletLines(ps[..Listed(|ps|)]) + MoreSuffix(|ps|)))
    {
      if args == [] {
        return Message(MEMBER_USAGE);
      }
      var name := args[0];
      if env.storeFails {
        return Message(MEMBER_FAILED);
      }
      var payments := store.MemberPayments(name);
      if payments == [] {
        return Message("❌ No payment records found for member: " + name);
      }
      ValidStoreDates(store);
      var message := BuildMemberHistory(name, payments);
      reply := Message(message);
    }

    /** handle_export_command: a progress message, then the workbook or the
        reason there is none. `fileLeft` says whether the temporary file is
        still on disk afterwards: only when its removal failed. */
    method HandleExport(env: Env) returns (replies: seq<Reply>, fileLeft: bool)
      requires store.Valid()
      ensures |replies| == 2 && replies[0] == Message(EXPORT_STARTED)
      ensures env.storeFails ==> replies[1] == ExportError
      ensures !env.storeFails && store.records == [] ==> replies[1] == Message(NOTHING_TO_EXPORT)
      ensures !env.storeFails && store.records != [] && (env.saveFails || env.sendFails) ==>
        replies[1] == ExportError
      ensures !env.storeFails && store.records != [] && !env.saveFails && !env.sendFails ==>
        && replies[1].ExportDocument?
        && ExportLayout(replies[1].sheet, store.AllPayments(), SumCents(store.AllPayments()))
        && replies[1].caption == ExportCaption(|store.records|, SumCents(store.AllPayments()))
      ensures fileLeft <==> !env.storeFails && store.records != [] && !env.saveFails && env.removeFails
    {
      replies := [Message(EXPORT_STARTED)];
      fileLeft := false;
      if env.storeFails {
        replies := replies + [ExportError];
        return;
      }
      var payments := store.AllPayments();
      if payments == [] {
        replies := replies + [Message(NOTHING_TO_EXPORT)];
        return;
      }
      ValidStoreDates(store);
      var sheet, total := BuildSheet(payments);
      if env.saveFails {
        replies := replies + [ExportError];
        return;
      }
      if env.sendFails {
        replies := replies + [ExportError];
      } else {
        replies := replies + [ExportDocument(sheet, ExportCaption(|payments|, total))];
      }
      fileLeft := env.removeFails;
    }

    /** handle_reset_command: with records present, remember when this user
        asked (replacing an earlier request of theirs) and ask for
        confirmation; otherwise nothing is remembered. */
    method HandleReset(user: int, env: Env) returns (reply: Reply)
      requires store.Valid()
      modifies this
      ensures env.storeFails ==>
        reply == Message(RESET_REQUEST_FAILED) && resetConfirmations == old(resetConfirmations)
      ensures !env.storeFails && store.records == [] ==>
        reply == Message(NOTHING_TO_DELETE) && resetConfirmations == old(resetConfirmations)
      ensures !env.storeFails && store.records != [] ==>
        && reply == ResetPrompt(|store.records|, SumCents(store.records))
        && resetConfirmations == old(resetConfirmations)[user := env.now]
    {
      if env.storeFails {
        return Message(RESET_REQUEST_FAILED);
      }
      var count := store.PaymentCount();
      if count == 0 {
        return Message(NOTHING_TO_DELETE);
      }
      resetConfirmations := resetConfirmations[user := env.now];
      reply := ResetPrompt(count, SumCents(store.records));
    }

    /** handle_confirm_reset_command: the user's request is used up whatever
        happens; only a valid one empties the store, and the reply reports how
        many records there were just before. */
    method HandleConfirmReset(user: int, env: Env) returns (reply: Reply)
      requires store.Valid()
      modifies this, store
      ensures store.Valid()
      ensures resetConfirmations == old(resetConfirmations) - {user}
      ensures !ConfirmationValid(old(resetConfirmations), user, env.now) ==>
        && reply == Message(NO_VALID_REQUEST)
        && store.records == old(store.records) && store.nextId == old(store.nextId)
      ensures ConfirmationValid(old(resetConfirmations), user, env.now) && env.storeFails ==>
        && reply == Message(RESET_FAILED)
        && store.records == old(store.records) && store.nextId == old(store.nextId)
      ensures ConfirmationValid(old(resetConfirmations), user, env.now) && !env.storeFails ==>
        && reply == Message(ResetDone(|old(store.records)|))
        && store.records == [] && store.nextId == 1
    {
      var valid := user in resetConfirmations && resetConfirmations[user] != 0.0
        && env.now - resetConfirmations[user] < RESET_TIMEOUT;
      resetConfirmations := resetConfirmations - {user};
      if !valid {
        return Message(NO_VALID_REQUEST);
      }
      var deleted := store.ResetAll(env.storeFails);
      if deleted.None? {
        return Message(RESET_FAILED);
      }
      reply := Message(ResetDone(deleted.value));
    }

    /** handle_stats_command: the count and the total, or why there are none. */
    method HandleStats(env: Env) returns (reply: Reply)
      ensures env.storeFails ==> reply == Message(STATS_FAILED)
      ensures !env.storeFails && store.records == [] ==> reply == Message(NO_PAYMENTS)
      ensures !env.storeFails && store.records != [] ==>
        reply == StatsReport(|store.records|, SumCents(store.records))
    {
      if env.storeFails {
        return Message(STATS_FAILED);
      }
      if store.PaymentCount() == 0 {
        return Message(NO_PAYMENTS);
      }
      reply := StatsReport(store.PaymentCount(), SumCents(store.records));
    }
  }

  /** Every listing the store gives has valid dates. */
  lemma ValidStoreDates(store: Store)
    requires store.Valid()
    ensures AllDatesValid(store.AllPayments())
    ensures forall name :: AllDatesValid(store.MemberPayments(name))
    ensures forall limit :: AllDatesValid(store.LastPayments(limit))
  {
    var all := store.AllPayments();
    assert forall i :: 0 <= i < |all| ==> all[i] in store.records;
    forall name
      ensures AllDatesValid(store.MemberPayments(name))
    {
      var ps := store.MemberPayments(name);
      assert forall i :: 0 <= i < |ps| ==> ps[i] in all;
    }
  }
}
