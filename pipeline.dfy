/** processData and the writes it issues: one quote is looked up against
    prices.csv, the new price is written, and an alert e-mail is attempted when
    the change is too large. */
module Pipeline {
  import opened Values
  import opened AlertRule
  import opened PriceStore

  /** How processData ends: normally, with the e-mail relay's error, or with
      the panic of an out-of-range field index while scanning the file. */
  datatype Status = Done | SendFailed | Crashed

  /** One processData step seen from outside: how it ends, the effects it has,
      in order, and what prices.csv holds afterwards. */
  datatype Outcome = Outcome(status: Status, effects: seq<Effect>, contents: Option<seq<Row>>)

  /** The alert e-mail for a ticker and a change: the ticker can be read back
      from both its subject and its body. */
  function AlertMail(ticker: string, change: real, codec: Codec): (mail: Effect)
    ensures mail.SentMail?
    ensures |mail.subject| >= |SubjectPrefix| && mail.subject[|SubjectPrefix|..] == ticker
    ensures |mail.body| >= 13 + |ticker| && mail.body[13..13 + |ticker|] == ticker
  {
    SentMail(Subject(ticker), Body(ticker, codec.format(change)))
  }

  /** What processData does with one quote, given what prices.csv reads as and
      whether the e-mail relay accepts the message. */
  function Process(contents: Option<seq<Row>>, data: StockData, delivered: bool, codec: Codec): (o: Outcome)
    ensures o.status == Crashed <==> LookupPrevious(contents, data.ticker, codec.parse).Panicked?
    ensures o.status == Crashed ==> o.effects == [] && o.contents == contents
    ensures delivered ==> o.status != SendFailed
  {
    match LookupPrevious(contents, data.ticker, codec.parse)
    case Panicked => Outcome(Crashed, [], contents)
    case Previous(previous, writesZero) =>
      var change := Change(data.price, previous);
      var zeroWrite := if writesZero then Writes(Records(data.ticker, codec.format(0.0))) else [];
      var priceWrite := Writes(Records(data.ticker, codec.format(data.price)));
      var mail := if Alerts(change) then [AlertMail(data.ticker, change, codec)] else [];
      var status := if Alerts(change) && !delivered then SendFailed else Done;
      Outcome(status, zeroWrite + priceWrite + mail, Some(Records(data.ticker, codec.format(data.price))))
  }

  /** The price a step compares against, when it does not crash. */
  function PreviousOf(contents: Option<seq<Row>>, data: StockData, codec: Codec): real
    requires LookupPrevious(contents, data.ticker, codec.parse).Previous?
  {
    LookupPrevious(contents, data.ticker, codec.parse).price
  }

  /** The write of the new price is issued on every step that gets past the
      lookup, whether or not an alert follows and whether or not it is
      delivered, and the file then holds exactly the header and that row. */
  lemma PriceWriteAlwaysIssued(contents: Option<seq<Row>>, data: StockData, delivered: bool, codec: Codec)
    requires LookupPrevious(contents, data.ticker, codec.parse).Previous?
    ensures var o := Process(contents, data, delivered, codec);
      o.status != Crashed &&
      o.contents == Some([Header, [data.ticker, codec.format(data.price)]]) &&
      WroteRow([data.ticker, codec.format(data.price)]) in o.effects
  {
  }

  /** Every alert e-mail comes after the write of the new price, and it is the
      last effect of the step. */
  lemma WriteBeforeMail(contents: Option<seq<Row>>, data: StockData, delivered: bool, codec: Codec)
    ensures var o := Process(contents, data, delivered, codec);
      forall k :: 0 <= k < |o.effects| && o.effects[k].SentMail? ==>
        k == |o.effects| - 1 &&
        exists j :: 0 <= j < k && o.effects[j] == WroteRow([data.ticker, codec.format(data.price)])
  {
    var o := Process(contents, data, delivered, codec);
    var look := LookupPrevious(contents, data.ticker, codec.parse);
    if look.Previous? {
      var zeroWrites := if look.writesZero then 2 else 0;
      assert |o.effects| >= zeroWrites + 2;
      assert o.effects[zeroWrites + 1] == WroteRow([data.ticker, codec.format(data.price)]);
      forall k | 0 <= k < |o.effects| && o.effects[k].SentMail?
        ensures k == |o.effects| - 1 && zeroWrites + 1 < k
      {
        assert k >= zeroWrites + 2;
      }
    }
  }

  /** An e-mail is attempted exactly when the change passes the threshold; it
      then carries the ticker and the change. */
  lemma MailIffAlert(contents: Option<seq<Row>>, data: StockData, delivered: bool, codec: Codec)
    requires LookupPrevious(contents, data.ticker, codec.parse).Previous?
    ensures var o := Process(contents, data, delivered, codec);
      var change := Change(data.price, PreviousOf(contents, data, codec));
      (Alerts(change) ==> o.effects[|o.effects| - 1] == AlertMail(data.ticker, change, codec)) &&
      (!Alerts(change) ==> forall k :: 0 <= k < |o.effects| ==> o.effects[k].WroteRow?)
  {
  }

  /** A relay failure is reported only after the price write: the step ends
      with the failure, the file holds the new price, and the failed e-mail was
      the last thing the step did. */
  lemma SendFailureKeepsWrite(contents: Option<seq<Row>>, data: StockData, delivered: bool, codec: Codec)
    ensures var o := Process(contents, data, delivered, codec);
      o.status == SendFailed <==>
        (LookupPrevious(contents, data.ticker, codec.parse).Previous? &&
         Alerts(Change(data.price, PreviousOf(contents, data, codec))) && !delivered)
    ensures var o := Process(contents, data, delivered, codec);
      o.status == SendFailed ==>
        o.contents == Some(Records(data.ticker, codec.format(data.price))) &&
        |o.effects| >= 3 && o.effects[|o.effects| - 1].SentMail? &&
        o.effects[|o.effects| - 2] == WroteRow([data.ticker, codec.format(data.price)])
  {
  }

  /** After a step the next lookup of the same ticker gives the price just
      processed, whatever records the file held before (the round trip through
      the file, with each write leaving exactly its two rows), provided the
      decimal text parses back and the ticker is not "ticker". */
  lemma ProcessThenLookup(contents: Option<seq<Row>>, data: StockData, delivered: bool, codec: Codec)
    requires data.ticker != Header[0]
    requires codec.parse(codec.format(data.price)) == Some(data.price)
    requires LookupPrevious(contents, data.ticker, codec.parse).Previous?
    ensures var o := Process(contents, data, delivered, codec);
      o.contents.Some? && LookupPrevious(o.contents, data.ticker, codec.parse) == Previous(data.price, false)
  {
    WrittenRecordsReadBack(data.ticker, data.price, codec);
  }

  /** The first quote of a ticker the file does not know is compared with zero:
      the change is ten times its price, the zero record is written first, then
      the price record. */
  lemma UnseenTickerStep(rows: seq<Row>, data: StockData, delivered: bool, codec: Codec)
    requires NoRowFor(rows, data.ticker)
    ensures var o := Process(Some(rows), data, delivered, codec);
      LookupPrevious(Some(rows), data.ticker, codec.parse) == Previous(0.0, true) &&
      Change(data.price, 0.0) == data.price * 10.0 &&
      |o.effects| >= 4 && o.effects[..4] == Writes(Records(data.ticker, codec.format(0.0))) + Writes(Records(data.ticker, codec.format(data.price)))
  {
    ZeroFallbacks(rows, data.ticker, codec.parse);
    FirstObservationChange(data.price);
  }

  /** The running process as far as one processData step is concerned:
      prices.csv, read as its list of records (or `None` when it cannot be
      read), and the log of effects issued so far. */
  class Monitor {
    const codec: Codec
    var contents: Option<seq<Row>>
    var effects: seq<Effect>

    constructor (codec: Codec, contents: Option<seq<Row>>)
      ensures this.codec == codec && this.contents == contents && effects == []
    {
      this.codec := codec;
      this.contents := contents;
      effects := [];
    }

    /** updateCell: a CSV writer is handed the header and the ticker's row, in
        that order; when it is flushed the file holds exactly those two rows. */
    method UpdateCell(ticker: string, price: real)
      modifies this
      ensures effects == old(effects) + Writes(Records(ticker, codec.format(price)))
      ensures contents == Some(Records(ticker, codec.format(price)))
    {
      var records := Records(ticker, codec.format(price));
      var i := 0;
      while i < |records|
        invariant 0 <= i <= |records|
        invariant effects == old(effects) + Writes(records[..i])
      {
        assert records[..i + 1][..i] == records[..i];
        effects := effects + [WroteRow(records[i])];
        i := i + 1;
      }
      assert records[..i] == records;
      contents := Some(records);
    }

    /** getPreviousPrice: read the file, scan it, and write the zero record
        when the read fails or no row is keyed by the ticker. */
    method GetPreviousPrice(ticker: string) returns (r: Lookup)
      modifies this
      ensures r == LookupPrevious(old(contents), ticker, codec.parse)
      ensures r.Previous? && r.writesZero ==>
        effects == old(effects) + Writes(Records(ticker, codec.format(0.0))) &&
        contents == Some(Records(ticker, codec.format(0.0)))
      ensures !(r.Previous? && r.writesZero) ==> effects == old(effects) && contents == old(contents)
    {
      if contents.None? {
        UpdateCell(ticker, 0.0);
        return Previous(0.0, true);
      }
      r := ScanRecords(contents.value, ticker, codec.parse);
      if r.Previous? && r.writesZero {
        UpdateCell(ticker, 0.0);
      }
    }

    /** processData: look up the previous price, compute the change, write the
        new price, and attempt the alert e-mail when the change is too large;
        `delivered` is the relay's answer. */
    method ProcessData(data: StockData, delivered: bool) returns (status: Status)
      modifies this
      ensures var o := Process(old(contents), data, delivered, codec);
        status == o.status && effects == old(effects) + o.effects && contents == o.contents
    {
      ghost var start := effects;
      ghost var expected := Process(contents, data, delivered, codec);
      var previous := GetPreviousPrice(data.ticker);
      if previous.Panicked? {
        return Crashed;
      }
      ghost var looked := effects;
      assert looked == start + (if previous.writesZero then Writes(Records(data.ticker, codec.format(0.0))) else []);
      var change := Change(data.price, previous.price);
      UpdateCell(data.ticker, data.price);
      ghost var written := effects;
      assert written == start + (looked[|start|..] + Writes(Records(data.ticker, codec.format(data.price))));
      if Alerts(change) {
        var subject := Subject(data.ticker);
        var body := Body(data.ticker, codec.format(change));
        assert SentMail(subject, body) == AlertMail(data.ticker, change, codec);
        effects := effects + [SentMail(subject, body)];
        assert effects == start + expected.effects;
        if !delivered {
          return SendFailed;
        }
      } else {
        assert effects == start + expected.effects;
      }
      return Done;
    }
  }
}
