/** The employee bulk upload of the admin portal (`admin/page.tsx`): the
    pasted list is cut into lines, each line trimmed, blank lines dropped,
    and one employee row is built per remaining address. */
module Admin {

  import opened Wrappers
  import opened Strings
  import opened Sequences
  import opened Auth

  // ---------------------------------------------------------------------
  // Parsing the pasted list

  /** `.map(email => email.trim())`. */
  function TrimEach(lines: seq<string>): (r: seq<string>)
    ensures |r| == |lines|
    ensures forall k | 0 <= k < |lines| :: r[k] == Trim(lines[k])
  {
    if |lines| == 0 then [] else [Trim(lines[0])] + TrimEach(lines[1..])
  }

  /** The pipeline of `handleEmployeeUpload`: split on line feeds, trim every
      piece, keep the non-empty ones. */
  function ParseEmployeeEmails(text: string): (emails: seq<string>)
    ensures forall k | 0 <= k < |emails| :: emails[k] != ""
    ensures forall k | 0 <= k < |emails| ::
              !IsSpace(emails[k][0]) && !IsSpace(emails[k][|emails[k]| - 1])
    ensures |emails| <= |Split(text, '\n')|
  {
    Filter(NonEmpty, TrimEach(Split(text, '\n')))
  }

  /** What one line contributes: nothing when it is all whitespace,
      otherwise the line itself, trimmed. */
  function EntryOf(line: string): (r: seq<string>)
    ensures |r| <= 1
  {
    if AllSpace(line) then [] else [Trim(line)]
  }

  /** The same list, defined line by line. */
  function Entries(lines: seq<string>): seq<string> {
    FlatMap(EntryOf, lines)
  }

  lemma EntriesCons(line: string, lines: seq<string>)
    ensures Entries([line] + lines) == EntryOf(line) + Entries(lines)
  {
    assert ([line] + lines)[1..] == lines;
  }

  /** Entries of a concatenation: the entries of the first part come first. */
  lemma EntriesAppend(xs: seq<string>, ys: seq<string>)
    ensures Entries(xs + ys) == Entries(xs) + Entries(ys)
  {
    FlatMapAppend(EntryOf, xs, ys);
  }

  /** A line contributes exactly what filtering keeps of its trimmed text. */
  lemma EntryOfKept(line: string)
    ensures EntryOf(line) == Keep(NonEmpty, Trim(line))
  {
  }

  lemma FilterTrimmedStep(lines: seq<string>)
    requires |lines| > 0
    requires Filter(NonEmpty, TrimEach(lines[1..])) == Entries(lines[1..])
    ensures Filter(NonEmpty, TrimEach(lines)) == Entries(lines)
  {
    assert TrimEach(lines) == [Trim(lines[0])] + TrimEach(lines[1..]);
    FilterAppend(NonEmpty, [Trim(lines[0])], TrimEach(lines[1..]));
    EntryOfKept(lines[0]);
    assert lines == [lines[0]] + lines[1..];
    EntriesCons(lines[0], lines[1..]);
  }

  /** The trimming filter and the line-by-line definition agree. */
  lemma {:induction false} FilterTrimmedIsEntries(lines: seq<string>)
    ensures Filter(NonEmpty, TrimEach(lines)) == Entries(lines)
  {
    if |lines| > 0 {
      FilterTrimmedIsEntries(lines[1..]);
      FilterTrimmedStep(lines);
    }
  }

  /** The parsed list is the list of entries of the text's lines. */
  lemma ParseIsEntries(text: string)
    ensures ParseEmployeeEmails(text) == Entries(Split(text, '\n'))
  {
    FilterTrimmedIsEntries(Split(text, '\n'));
  }

  /** Pasting lines one under the other gives one address per non-blank
      line, in line order. */
  lemma OnePerNonBlankLine(lines: seq<string>)
    requires |lines| >= 1
    requires forall k | 0 <= k < |lines| :: '\n' !in lines[k]
    ensures ParseEmployeeEmails(Join(lines, "\n")) == Entries(lines)
  {
    JoinSplit(lines, '\n');
    ParseIsEntries(Join(lines, "\n"));
  }

  /** A line followed by more text: its entry, if any, precedes the rest. */
  lemma FirstLineFirst(line: string, rest: string)
    requires '\n' !in line
    ensures ParseEmployeeEmails(line + "\n" + rest)
            == EntryOf(line) + ParseEmployeeEmails(rest)
  {
    SplitCons(line, '\n', rest);
    assert line + ['\n'] + rest == line + "\n" + rest;
    ParseIsEntries(line + "\n" + rest);
    ParseIsEntries(rest);
    EntriesCons(line, Split(rest, '\n'));
  }

  /** A blank line anywhere changes nothing. */
  lemma BlankLineIgnored(line: string, rest: string)
    requires '\n' !in line && AllSpace(line)
    ensures ParseEmployeeEmails(line + "\n" + rest) == ParseEmployeeEmails(rest)
  {
    FirstLineFirst(line, rest);
  }

  // ---------------------------------------------------------------------
  // Rows and the outcome

  /** One row for the `users` table. */
  datatype Row = Row(companyId: string, email: string, role: Role)

  /** `employeeEmails.map(email => ({ company_id, email, role: 'employee' }))`. */
  function BuildRows(companyId: string, emails: seq<string>): (rows: seq<Row>)
    ensures |rows| == |emails|
    ensures forall k | 0 <= k < |rows| :: rows[k].role == Employee && rows[k].companyId == companyId
    ensures forall k | 0 <= k < |rows| :: rows[k].email == emails[k]
  {
    if |emails| == 0 then [] else [Row(companyId, emails[0], Employee)] + BuildRows(companyId, emails[1..])
  }

  /** The addresses of a list of rows. */
  function EmailsOf(rows: seq<Row>): (r: seq<string>)
    ensures |r| == |rows|
  {
    if |rows| == 0 then [] else [rows[0].email] + EmailsOf(rows[1..])
  }

  /** Building rows loses no address and adds none. */
  lemma {:induction false} RowsKeepEmails(companyId: string, emails: seq<string>)
    ensures EmailsOf(BuildRows(companyId, emails)) == emails
  {
    if |emails| > 0 {
      RowsKeepEmails(companyId, emails[1..]);
      assert BuildRows(companyId, emails)[1..] == BuildRows(companyId, emails[1..]);
    }
  }

  /** `` `${n} employees added successfully!` ``. */
  function SuccessMessage(n: nat): string {
    NatToString(n) + " employees added successfully!"
  }

  /** `` `Error: ${message}` ``. */
  function ErrorMessage(message: string): string {
    "Error: " + message
  }

  /** What the upload hands to the database and shows afterwards. */
  datatype Upload = Upload(rows: seq<Row>, message: string)

  /** `handleEmployeeUpload` as intended, with the insert's outcome as a
      parameter: `None` when it succeeds, else the error's message ("Unknown
      error" for a thrown value that is no `Error`). On success the form is
      cleared without failing (for instance through the form element taken
      before the insert is awaited), so the count message stays. */
  function EmployeeUpload(companyId: string, text: string, insertError: Option<string>): (r: Upload)
    ensures r.rows == BuildRows(companyId, ParseEmployeeEmails(text))
    ensures insertError.None? ==> r.message == SuccessMessage(|ParseEmployeeEmails(text)|)
    ensures insertError.Some? ==> r.message == ErrorMessage(insertError.value)
  {
    var emails := ParseEmployeeEmails(text);
    var rows := BuildRows(companyId, emails);
    if insertError.None? then Upload(rows, SuccessMessage(|emails|))
    else Upload(rows, ErrorMessage(insertError.value))
  }

  /** The number at the head of the success message is the number of rows
      inserted, which is the number of parsed addresses. */
  lemma MessageCountsRows(companyId: string, text: string)
    ensures ParseInt(EmployeeUpload(companyId, text, None).message)
            == Some(|EmployeeUpload(companyId, text, None).rows|)
    ensures |EmployeeUpload(companyId, text, None).rows| == |ParseEmployeeEmails(text)|
  {
    var n := |ParseEmployeeEmails(text)|;
    ParseIntRendered(n, " employees added successfully!");
  }

  /** `handleEmployeeUpload` as written. After the awaited insert succeeds
      the handler sets the count message and then calls
      `e.currentTarget.reset()`; by then the event has finished dispatching
      and its `currentTarget` is null, so the call throws a `TypeError`
      whose text (`resetError`, worded by the JavaScript engine) the catch
      turns into the final message. A failed insert never reaches the reset. */
  function EmployeeUploadAsWritten(companyId: string, text: string, insertError: Option<string>, resetError: string): (r: Upload)
    ensures r.rows == BuildRows(companyId, ParseEmployeeEmails(text))
    ensures insertError.Some? ==> r.message == ErrorMessage(insertError.value)
    ensures insertError.None? ==> r.message == ErrorMessage(resetError)
  {
    var intended := EmployeeUpload(companyId, text, insertError);
    if insertError.None? then intended.(message := ErrorMessage(resetError)) else intended
  }

  /** The discrepancy: every parsed address is inserted, yet the page ends
      on an error message, which is never the count message and holds no
      count to read. */
  lemma ResetOverwritesSuccess(companyId: string, text: string, resetError: string)
    ensures EmployeeUploadAsWritten(companyId, text, None, resetError).rows
            == BuildRows(companyId, ParseEmployeeEmails(text))
    ensures EmployeeUploadAsWritten(companyId, text, None, resetError).message
            != SuccessMessage(|ParseEmployeeEmails(text)|)
    ensures ParseInt(EmployeeUploadAsWritten(companyId, text, None, resetError).message) == None
  {
    ErrorIsNoCount(resetError, |ParseEmployeeEmails(text)|);
  }

  /** An error message starts with a letter, a count message with a digit. */
  lemma ErrorIsNoCount(message: string, n: nat)
    ensures ErrorMessage(message) != SuccessMessage(n)
    ensures ParseInt(ErrorMessage(message)) == None
  {
    var shown := ErrorMessage(message);
    assert shown[0] == 'E' && !IsSpace(shown[0]);
    assert IsDigit(SuccessMessage(n)[0]);
    assert TrimStart(shown) == shown;
  }

  /** Every inserted row is an employee of the submitted company, and the
      rows' addresses are the parsed addresses in order. */
  lemma UploadRows(companyId: string, text: string, insertError: Option<string>)
    ensures forall row | row in EmployeeUpload(companyId, text, insertError).rows ::
              row.role == Employee && row.companyId == companyId
    ensures EmailsOf(EmployeeUpload(companyId, text, insertError).rows) == ParseEmployeeEmails(text)
  {
    RowsKeepEmails(companyId, ParseEmployeeEmails(text));
  }
}
