/** The boundary with the chat gateway: replies are values the handlers return
    instead of messages they send, and what a handler observes of the outside
    world (clocks, failures of external calls) is an explicit parameter. */
module Chat {
  import opened Ledger

  /** What one handler call observes: `now` is `datetime.now().timestamp()`,
      `clock` the database's CURRENT_TIMESTAMP for a new row, and the flags say
      which external call raises during this call: the store, the workbook's
      save, the document upload, the removal of the temporary file. */
  datatype Env = Env(
    now: real,
    clock: DateTime,
    storeFails: bool,
    saveFails: bool,
    sendFails: bool,
    removeFails: bool)

  /** A spreadsheet cell, a row (column number to cell) and a sheet (row number
      to row); rows and columns are numbered from 1. */
  datatype Cell = Number(n: int) | Label(s: string)
  type Row = map<nat, Cell>
  type Sheet = map<nat, Row>

  /** A reply of the bot. Replies whose text is a fixed string or is built by
      the modelled layout code are `Message`s with their exact text; those whose
      text formats floating-point aggregates keep the figures they are built from. */
  datatype Reply =
    | Message(text: string)
    | Welcome
    | Help(withAdminCommands: bool)
    | TodayReport(count: nat, totalCents: nat)
    | MonthReport(count: nat, totalCents: nat)
    | StatsReport(payments: nat, totalCents: nat)
    | ResetPrompt(records: nat, totalCents: nat)
    | ExportDocument(sheet: Sheet, caption: string)
    | ExportError
}
