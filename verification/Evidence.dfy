/**
What can be attached to a transaction: bank records and order payments, how they
compare with transactions, and the updates they build (src/services/domain/base.py,
bank_record.py, order_payment.py and evidence.py).
*/
module Evidence {
  import opened Wrappers
  import opened Calendar
  import opened Text
  import opened Filters
  import opened Ledger
  import opened Numbers

  /** A `Decimal`: its value, and how it prints (1.5 and 1.50 are equal but print differently). */
  datatype Money = Money(value: real, text: string)

  datatype Item =
    | BankRecord(
        date: Date,
        amount: Money,
        details: string,
        recipient: string,
        operationAmount: Money,
        sender: string,
        operationCurrency: string,
        accountCurrency: string,
        senderAccount: string,
        recipientAccount: string)
    | OrderPayment(
        date: Date,
        amount: Money,
        lines: seq<string>,
        tagDone: string,
        externalShortId: string)

  const TOLERANCE_DAYS := 6

  /** Whether the item belongs to the transaction: same absolute amount, and a date the item tolerates. */
  predicate Compare(item: Item, tx: Transaction) {
    && Abs(item.amount.value) == Abs(tx.amount)
    && (if item.BankRecord? then item.date == tx.date
        else Ordinal(item.date) <= Ordinal(tx.date) <= Ordinal(item.date) + TOLERANCE_DAYS)
  }

  // ----- building updates -----

  function AddLine(existing: Option<string>, newLine: string): (r: string)
    ensures exists before :: r == before + newLine
    ensures existing.Some? ==> existing.value <= r
  {
    if existing.Some? && existing.value != "" then
      assert existing.value + "\n" + newLine == (existing.value + "\n") + newLine;
      existing.value + "\n" + newLine
    else
      assert newLine == "" + newLine;
      newLine
  }

  function Join(lines: seq<string>): string {
    JoinWith("\n", lines)
  }

  datatype Shown = TextField(name: string, value: string) | MoneyField(name: string, money: Money, currency: string)

  predicate Meaningful(f: Shown) {
    match f
    case TextField(_, value) => Strip(value) != ""
    case MoneyField(_, money, _) => money.value != 0.0
  }

  function ShowField(f: Shown): string {
    match f
    case TextField(name, value) => name + ": " + value
    case MoneyField(name, money, currency) => name + ": " + money.text + " " + currency
  }

  /** The fields of a record in declaration order, without the two currency fields that are printed with the amounts. */
  function ShownFields(r: Item, dateText: string): seq<Shown>
    requires r.BankRecord?
  {
    [TextField("date", dateText),
     MoneyField("amount", r.amount, r.accountCurrency),
     TextField("details", r.details),
     TextField("recipient", r.recipient),
     MoneyField("operation_amount", r.operationAmount, r.operationCurrency),
     TextField("sender", r.sender),
     TextField("sender_account", r.senderAccount),
     TextField("recipient_account", r.recipientAccount)]
  }

  /** An empty list of wanted names counts as none; the unwanted names matter only without one. */
  predicate Printed(f: Shown, onlyMeaningful: bool, wanted: set<string>, unwanted: set<string>) {
    && (if wanted != {} then f.name in wanted else f.name !in unwanted)
    && (onlyMeaningful ==> Meaningful(f))
  }

  function ShownLines(fields: seq<Shown>, onlyMeaningful: bool, wanted: set<string>, unwanted: set<string>):
    seq<string>
  {
    if fields == [] then []
    else
      var init, last := fields[..|fields| - 1], fields[|fields| - 1];
      ShownLines(init, onlyMeaningful, wanted, unwanted) +
      (if Printed(last, onlyMeaningful, wanted, unwanted) then [ShowField(last)] else [])
  }

  function PrintedText(r: Item, onlyMeaningful: bool, wanted: set<string>, unwanted: set<string>): string
    requires r.BankRecord?
  {
    Join(ShownLines(ShownFields(r, IsoDate(r.date)), onlyMeaningful, wanted, unwanted))
  }

  /** What an update adds to the notes. */
  function RecordText(r: Item): string
    requires r.BankRecord?
  {
    PrintedText(r, true, {}, {})
  }

  method PrettyPrint(r: Item, onlyMeaningful: bool, wanted: set<string>, unwanted: set<string>) returns (text: string)
    requires r.BankRecord?
    ensures text == PrintedText(r, onlyMeaningful, wanted, unwanted)
  {
    var fields := ShownFields(r, IsoDate(r.date));
    var lines: seq<string> := [];
    for i := 0 to |fields|
      invariant lines == ShownLines(fields[..i], onlyMeaningful, wanted, unwanted)
    {
      assert fields[..i + 1][..i] == fields[..i];
      if wanted != {} {
        if fields[i].name !in wanted {
          continue;
        }
      } else if fields[i].name in unwanted {
        continue;
      }
      if onlyMeaningful && !Meaningful(fields[i]) {
        continue;
      }
      lines := lines + [ShowField(fields[i])];
    }
    assert fields[..|fields|] == fields;
    text := Join(lines);
  }

  const EMPTY_DETAILS := "Details cannot be empty"

  /** Whether the notes already hold the payment's details, ignoring case. */
  predicate Noted(tx: Transaction, p: Item)
    requires p.OrderPayment?
  {
    tx.notes.Some? && tx.notes.value != "" && Contains(Lower(tx.notes.value), Lower(Join(p.lines)))
  }

  function BuildUpdate(item: Item, tx: Transaction): Result<TransactionUpdate, string> {
    if item.BankRecord? then
      var description :=
        if Contains(Lower(tx.description), Lower(item.details)) then None
        else Some(tx.description + ";" + item.details);
      Ok(TransactionUpdate(description, Some(AddLine(tx.notes, RecordText(item))), Some(tx.tags + {BLIK_DONE})))
    else
      var details := Join(item.lines);
      if details == "" then Err(EMPTY_DETAILS)
      else
        Ok(TransactionUpdate(None, if Noted(tx, item) then None else Some(AddLine(tx.notes, details)),
                             Some(tx.tags + {item.tagDone})))
  }

  /** What applying the item leaves behind; an item that builds no update leaves the transaction alone. */
  function Attach(tx: Transaction, item: Item): Transaction {
    var update := BuildUpdate(item, tx);
    if update.Ok? then ApplyUpdate(tx, update.value) else tx
  }

  function AttachAll(tx: Transaction, items: seq<Item>): Transaction {
    if items == [] then tx else Attach(AttachAll(tx, items[..|items| - 1]), items[|items| - 1])
  }

  // ----- replaying -----

  /** The transaction already carries everything about the item that replaying must not repeat. */
  predicate Carries(tx: Transaction, item: Item) {
    if item.BankRecord? then Contains(Lower(tx.description), Lower(item.details)) && BLIK_DONE in tx.tags
    else Join(item.lines) != "" ==> Noted(tx, item) && item.tagDone in tx.tags
  }

  lemma EndsWithContains(before: string, details: string)
    ensures Contains(Lower(before + details), Lower(details))
  {
    LowerConcat(before, details);
    ContainsSelf(Lower(details));
    ContainsInLonger(Lower(before), Lower(details), "", Lower(details));
    assert Lower(before) + Lower(details) + "" == Lower(before) + Lower(details);
  }

  lemma GrowingKeepsContains(text: string, longer: string, details: string)
    requires text <= longer && Contains(Lower(text), Lower(details))
    ensures Contains(Lower(longer), Lower(details))
  {
    var rest := longer[|text|..];
    assert longer == text + rest;
    LowerConcat(text, rest);
    ContainsInLonger("", Lower(text), Lower(rest), Lower(details));
    assert "" + Lower(text) + Lower(rest) == Lower(text) + Lower(rest);
  }

  lemma AttachCarries(tx: Transaction, item: Item)
    ensures Carries(Attach(tx, item), item)
  {
    if item.BankRecord? {
      EndsWithContains(tx.description + ";", item.details);
    } else {
      var details := Join(item.lines);
      var before :| AddLine(tx.notes, details) == before + details;
      EndsWithContains(before, details);
    }
  }

  /** The text of a transaction only ever grows at the end, and tags are only ever added. */
  ghost predicate Grows(a: Transaction, b: Transaction) {
    && b.id == a.id && b.date == a.date && b.amount == a.amount && b.category == a.category
    && a.description <= b.description
    && (a.notes.Some? ==> b.notes.Some? && a.notes.value <= b.notes.value)
    && a.tags <= b.tags
  }

  lemma AttachGrows(tx: Transaction, item: Item)
    ensures Grows(tx, Attach(tx, item))
  {
  }

  lemma CarriesSurvives(a: Transaction, b: Transaction, item: Item)
    requires Grows(a, b) && Carries(a, item)
    ensures Carries(b, item)
  {
    if item.BankRecord? {
      GrowingKeepsContains(a.description, b.description, item.details);
    } else if Join(item.lines) != "" {
      GrowingKeepsContains(a.notes.value, b.notes.value, Join(item.lines));
    }
  }

  /** Applying evidence never rewrites what was there: earlier notes and descriptions stay as prefixes. */
  lemma {:induction false} EarlierTextStays(tx: Transaction, items: seq<Item>)
    ensures Grows(tx, AttachAll(tx, items))
  {
    if items == [] {
    } else {
      EarlierTextStays(tx, items[..|items| - 1]);
      AttachGrows(AttachAll(tx, items[..|items| - 1]), items[|items| - 1]);
    }
  }

  lemma {:induction false} AttachAllCarries(tx: Transaction, items: seq<Item>)
    ensures forall item | item in items :: Carries(AttachAll(tx, items), item)
  {
    if items == [] {
    } else {
      var init, last := items[..|items| - 1], items[|items| - 1];
      var before := AttachAll(tx, init);
      AttachAllCarries(tx, init);
      AttachGrows(before, last);
      AttachCarries(before, last);
      assert items == init + [last];
      forall item | item in init ensures Carries(Attach(before, last), item) {
        CarriesSurvives(before, Attach(before, last), item);
      }
    }
  }

  lemma CarriedItemChangesOnlyNotes(tx: Transaction, item: Item)
    requires Carries(tx, item)
    ensures Attach(tx, item).(notes := tx.notes) == tx
    ensures item.OrderPayment? ==> Attach(tx, item) == tx
  {
    if item.BankRecord? {
      assert tx.tags + {BLIK_DONE} == tx.tags;
    } else if Join(item.lines) != "" {
      assert tx.tags + {item.tagDone} == tx.tags;
    }
  }

  lemma {:induction false} CarriedItemsChangeOnlyNotes(tx: Transaction, items: seq<Item>)
    requires forall item | item in items :: Carries(tx, item)
    ensures AttachAll(tx, items).(notes := tx.notes) == tx
    ensures (forall item | item in items :: item.OrderPayment?) ==> AttachAll(tx, items) == tx
  {
    if items == [] {
    } else {
      var init, last := items[..|items| - 1], items[|items| - 1];
      var before := AttachAll(tx, init);
      assert items == init + [last];
      CarriedItemsChangeOnlyNotes(tx, init);
      EarlierTextStays(tx, init);
      CarriesSurvives(tx, before, last);
      CarriedItemChangesOnlyNotes(before, last);
    }
  }

  /**
   Replaying a list of evidence, each update built from the transaction as the one before left it, changes
   neither description nor tags. Payments with empty details build no update, so the list may contain them.
   */
  lemma ReplayKeepsDescriptionAndTags(tx: Transaction, items: seq<Item>)
    ensures var once := AttachAll(tx, items);
            var twice := AttachAll(once, items);
            twice.description == once.description && twice.tags == once.tags
  {
    AttachAllCarries(tx, items);
    CarriedItemsChangeOnlyNotes(AttachAll(tx, items), items);
  }

  /** Replaying order payments changes nothing at all. */
  lemma ReplayingPaymentsIsANoOp(tx: Transaction, payments: seq<Item>)
    requires forall p | p in payments :: p.OrderPayment?
    ensures AttachAll(AttachAll(tx, payments), payments) == AttachAll(tx, payments)
  {
    AttachAllCarries(tx, payments);
    CarriedItemsChangeOnlyNotes(AttachAll(tx, payments), payments);
  }

  /** Every payment that can be attached leaves its details in the notes and its tag on the transaction. */
  lemma PaymentsLeaveTheirMark(tx: Transaction, payments: seq<Item>, p: Item)
    requires p in payments && p.OrderPayment? && Join(p.lines) != ""
    ensures var after := AttachAll(tx, payments);
            && p.tagDone in after.tags
            && after.notes.Some? && Contains(Lower(after.notes.value), Lower(Join(p.lines)))
  {
    AttachAllCarries(tx, payments);
  }

  lemma {:induction false} ShownLinesStart(fields: seq<Shown>)
    requires fields != [] && Meaningful(fields[0])
    ensures ShownLines(fields, true, {}, {}) != []
    ensures ShownLines(fields, true, {}, {})[0] == ShowField(fields[0])
  {
    if |fields| == 1 {
      assert fields[..0] == [];
    } else {
      ShownLinesStart(fields[..|fields| - 1]);
    }
  }

  /** A bank record always prints something: its date is always meaningful. */
  lemma RecordTextIsNotEmpty(r: Item)
    requires r.BankRecord?
    ensures RecordText(r) != ""
  {
    var fields := ShownFields(r, IsoDate(r.date));
    NothingToStrip(IsoDate(r.date));
    assert Meaningful(fields[0]);
    ShownLinesStart(fields);
    JoinKeepsTheFirst("\n", ShownLines(fields, true, {}, {}));
  }

  /** Unlike a payment, a bank record adds its text again on every replay: the notes strictly grow. */
  lemma ReplayingARecordGrowsTheNotes(tx: Transaction, r: Item)
    requires r.BankRecord?
    ensures var once := Attach(tx, r);
            var twice := Attach(once, r);
            once.notes.Some? && twice.notes.Some? && |twice.notes.value| > |once.notes.value|
  {
    RecordTextIsNotEmpty(r);
  }

  // ----- what ends up in the notes -----

  /** A field is printed exactly if the three options select it. */
  predicate Selected(f: Shown, onlyMeaningful: bool, wanted: set<string>, unwanted: set<string>) {
    && (wanted != {} ==> f.name in wanted)
    && (wanted == {} ==> f.name !in unwanted)
    && (onlyMeaningful && f.TextField? ==> Strip(f.value) != "")
    && (onlyMeaningful && f.MoneyField? ==> f.money.value != 0.0)
  }

  function SelectedBy(onlyMeaningful: bool, wanted: set<string>, unwanted: set<string>): Shown -> bool {
    (f: Shown) => Selected(f, onlyMeaningful, wanted, unwanted)
  }

  /** One line for every selected field, in order: its name, and its value with the currency of an amount. */
  lemma {:induction false} LinesAreTheSelectedFields(
    fields: seq<Shown>, onlyMeaningful: bool, wanted: set<string>, unwanted: set<string>)
    ensures var chosen := Filter(SelectedBy(onlyMeaningful, wanted, unwanted), fields);
            var lines := ShownLines(fields, onlyMeaningful, wanted, unwanted);
            && |lines| == |chosen|
            && forall i | 0 <= i < |lines| ::
                 lines[i] == chosen[i].name + ": " + (if chosen[i].TextField? then chosen[i].value
                                                      else chosen[i].money.text + " " + chosen[i].currency)
  {
    if fields == [] {
    } else {
      var init, last := fields[..|fields| - 1], fields[|fields| - 1];
      assert fields == init + [last];
      LinesAreTheSelectedFields(init, onlyMeaningful, wanted, unwanted);
      FilterOneMore(SelectedBy(onlyMeaningful, wanted, unwanted), init, last);
      if last.MoneyField? {
        var name, text, currency := last.name, last.money.text, last.currency;
        assert name + ": " + text + " " + currency == name + ": " + (text + " " + currency);
      }
    }
  }

  /** The texts of records, as they are noted. */
  function RecordTexts(records: seq<Item>): (texts: seq<string>)
    requires forall r | r in records :: r.BankRecord?
    ensures |texts| == |records|
    ensures forall i | 0 <= i < |records| :: records[i] in records && texts[i] == RecordText(records[i])
  {
    seq(|records|, i requires 0 <= i < |records| && records[i] in records => RecordText(records[i]))
  }

  /** The notes of a transaction as the first of several lines, if there are any. */
  function NoteLines(tx: Transaction): seq<string> {
    if tx.notes.Some? && tx.notes.value != "" then [tx.notes.value] else []
  }

  lemma RecordAddsALine(tx: Transaction, r: Item)
    requires r.BankRecord?
    ensures Attach(tx, r).notes == Some(Join(NoteLines(tx) + [RecordText(r)]))
    ensures Attach(tx, r).tags == tx.tags + {BLIK_DONE}
  {
    LineAdded(tx, RecordText(r));
  }

  lemma LineAdded(tx: Transaction, line: string)
    ensures AddLine(tx.notes, line) == Join(NoteLines(tx) + [line])
  {
    JoinOneMorePart("\n", NoteLines(tx), line);
  }

  lemma JoinOneMoreLine(lines: seq<string>, line: string)
    requires lines != []
    ensures Join(lines + [line]) == Join([Join(lines)] + [line])
  {
    JoinOneMorePart("\n", lines, line);
    JoinOneMorePart("\n", [Join(lines)], line);
  }

  lemma JoinedRecordsAreNotEmpty(tx: Transaction, records: seq<Item>)
    requires records != [] && forall r | r in records :: r.BankRecord?
    ensures Join(NoteLines(tx) + RecordTexts(records)) != ""
  {
    assert records[0] in records;
    RecordTextIsNotEmpty(records[0]);
    JoinKeepsTheFirst("\n", NoteLines(tx) + RecordTexts(records));
  }

  /** Attaching records lists their texts behind the earlier notes, one to a line, and tags the transaction. */
  lemma {:induction false} NotesListTheRecords(tx: Transaction, records: seq<Item>)
    requires records != [] && forall r | r in records :: r.BankRecord?
    ensures AttachAll(tx, records).notes == Some(Join(NoteLines(tx) + RecordTexts(records)))
    ensures AttachAll(tx, records).tags == tx.tags + {BLIK_DONE}
  {
    var init, last := records[..|records| - 1], records[|records| - 1];
    assert records == init + [last];
    var lines, before := NoteLines(tx) + RecordTexts(init), AttachAll(tx, init);
    assert NoteLines(tx) + RecordTexts(records) == lines + [RecordText(last)];
    RecordAddsALine(before, last);
    if init == [] {
      assert lines == NoteLines(tx);
    } else {
      NotesListTheRecords(tx, init);
      JoinedRecordsAreNotEmpty(tx, init);
      JoinOneMoreLine(lines, RecordText(last));
      assert NoteLines(before) == [Join(lines)];
    }
  }

  /** A payment that is not noted yet adds its details as one more line; whatever is attached adds its tag. */
  lemma PaymentAddsALine(tx: Transaction, p: Item)
    requires p.OrderPayment? && Join(p.lines) != ""
    ensures Attach(tx, p).tags == tx.tags + {p.tagDone} && Attach(tx, p).description == tx.description
    ensures Attach(tx, p).notes ==
            if tx.notes.Some? && Contains(Lower(tx.notes.value), Lower(Join(p.lines))) then tx.notes
            else Some(Join(NoteLines(tx) + [Join(p.lines)]))
  {
    var details := Join(p.lines);
    LineAdded(tx, details);
    if tx.notes == Some("") {
      NothingContainsMore(Lower(""), Lower(details));
    }
  }

  lemma NothingContainsMore(hay: string, needle: string)
    requires |hay| < |needle|
    ensures !Contains(hay, needle)
  {
  }

  /** A record adds its details to the description, behind a semicolon, unless they are there in any case. */
  lemma RecordExtendsTheDescription(tx: Transaction, r: Item)
    requires r.BankRecord?
    ensures Attach(tx, r).description ==
            if Contains(Lower(tx.description), Lower(r.details)) then tx.description
            else JoinWith(";", [tx.description, r.details])
  {
    assert [tx.description, r.details][..1] == [tx.description];
  }
}
