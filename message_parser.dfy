/** The server's line parser (src/MessageParser.cpp): a character buffer
    from which '|'-separated, '\n'-terminated lines are peeked or consumed
    and decoded into the wire records.

    Every `next*` call has four outcomes: no complete line yet (buffer
    untouched), a line that is dropped (consumed, no message), a decoded
    message (line consumed, except that the header is only peeked), and a
    number conversion that throws (buffer untouched, since the erase comes
    after the conversions). */
module MessageParsing {
  import opened Text
  import opened Messages

  datatype Decoded<T> = NoLine | Dropped | Parsed(value: T) | Throws

  // ---------------------------------------------------------------------
  // Lines in the buffer

  /** Index of the first '\n' (std::find), |b| when there is none. */
  function LineEnd(b: string): (i: nat)
    ensures i <= |b|
  {
    IndexOf(b, '\n', 0)
  }

  predicate HasLine(b: string) { LineEnd(b) < |b| }

  /** The first line, without its '\n'. */
  function FirstLine(b: string): (line: string)
    requires HasLine(b)
    ensures '\n' !in line
  {
    b[..LineEnd(b)]
  }

  /** What follows the first '\n'. */
  function AfterLine(b: string): string
    requires HasLine(b)
  {
    b[LineEnd(b) + 1..]
  }

  /** A buffer with a line is that line, its '\n' and the rest. */
  lemma LineSplit(b: string)
    requires HasLine(b)
    ensures b == FirstLine(b) + "\n" + AfterLine(b)
    ensures |AfterLine(b)| < |b|
  {
  }

  /** A line written in front of a buffer is the first line read back. */
  lemma {:induction false} LineOfPrefix(line: string, rest: string)
    requires '\n' !in line
    ensures HasLine(line + "\n" + rest)
    ensures FirstLine(line + "\n" + rest) == line && AfterLine(line + "\n" + rest) == rest
  {
    var b := line + "\n" + rest;
    assert b == line + ("\n" + rest);
    IndexOfPlainPrefix(line, "\n" + rest, '\n');
    assert b[..|line|] == line;
    assert b[|line| + 1..] == rest;
  }

  // ---------------------------------------------------------------------
  // Decoding one line

  /** The i-th field as std::getline reads it: empty past the last one. */
  function Field(parts: seq<string>, i: nat): string
  {
    if i < |parts| then parts[i] else ""
  }

  function TypeOf(s: string): Option<MessageType>
  {
    if s == "ADD" then Some(Add)
    else if s == "CANCEL" then Some(Cancel)
    else if s == "CANCEL_REPLACE" then Some(CancelReplace)
    else if s == "SNAPSHOT_REQUEST" then Some(MessageType.SnapshotRequest)
    else None
  }

  /** nextMessageHeader on a line: an empty type or sequence field or an
      unknown type drops the line; an empty timestamp reads as 0. */
  function DecodeHeader(line: string): Decoded<MessageHeader>
  {
    var parts := Split(line);
    var typeStr, seqStr := Field(parts, 0), Field(parts, 1);
    var tsStr := if Field(parts, 2) == "" then "0" else Field(parts, 2);
    if typeStr == "" || seqStr == "" || TypeOf(typeStr).None? then Dropped
    else
      var sequence, ts := ParseU64(seqStr), ParseU64(tsStr);
      if sequence.None? || ts.None? then Throws
      else Parsed(MessageHeader(TypeOf(typeStr).value, sequence.value, ts.value))
  }

  function TifOf(s: string, current: TimeInForce): TimeInForce
  {
    if s == "GTC" then GTC else if s == "IOC" then IOC else if s == "FOK" then FOK else current
  }

  function OrderTypeOf(s: string, current: OrderType): OrderType
  {
    if s == "LIMIT" then Limit else if s == "MARKET" then Market
    else if s == "STOP_LOSS" then StopLoss else if s == "ICEBERG" then Iceberg else current
  }

  /** The fields of an ADD line with at least 8 fields: fields 8 to 12
      override the defaults when present. */
  function DecodeAdd(parts: seq<string>): Decoded<AddMessage>
    requires |parts| >= 8
  {
    var sequence, ts, id := ParseU64(parts[1]), ParseU64(parts[2]), ParseU64(parts[3]);
    var price, qty := ParseTicks(parts[5]), ParseU64(parts[6]);
    if sequence.None? || ts.None? || id.None? || price.None? || qty.None? then Throws
    else
      var participant := if |parts| >= 11 then ParseU64(parts[10]) else Some(0);
      var trigger := if |parts| >= 12 then ParseTicks(parts[11]) else Some(0);
      var visible := if |parts| >= 13 then ParseU64(parts[12]) else qty;
      if participant.None? || trigger.None? || visible.None? then Throws
      else Parsed(AddMessage(
        MessageHeader(Add, sequence.value, ts.value), id.value, parts[4], price.value, qty.value,
        if parts[7] == "BUY" then Buy else Sell,
        if |parts| >= 9 then TifOf(parts[8], GTC) else GTC,
        if |parts| >= 10 then OrderTypeOf(parts[9], Limit) else Limit,
        participant.value, trigger.value, visible.value))
  }

  /** nextAddMessage on a line. */
  function AddFromLine(line: string): Decoded<AddMessage>
  {
    var parts := Split(line);
    if |parts| < 8 || parts[0] != "ADD" then Dropped else DecodeAdd(parts)
  }

  /** nextCancelMessage on a line: at least 4 fields; the participant is
      field 4 when present, 0 otherwise. */
  function CancelFromLine(line: string): Decoded<CancelMessage>
  {
    var parts := Split(line);
    if |parts| < 4 || parts[0] != "CANCEL" then Dropped
    else
      var sequence, ts, id := ParseU64(parts[1]), ParseU64(parts[2]), ParseU64(parts[3]);
      var participant := if |parts| >= 5 then ParseU64(parts[4]) else Some(0);
      if sequence.None? || ts.None? || id.None? || participant.None? then Throws
      else Parsed(CancelMessage(MessageHeader(Cancel, sequence.value, ts.value), id.value, participant.value))
  }

  /** nextCancelReplaceMessage on a line: at least 6 fields; the
      participant is field 6 when present, 0 otherwise. */
  function CancelReplaceFromLine(line: string): Decoded<CancelReplaceMessage>
  {
    var parts := Split(line);
    if |parts| < 6 || parts[0] != "CANCEL_REPLACE" then Dropped
    else
      var sequence, ts, id := ParseU64(parts[1]), ParseU64(parts[2]), ParseU64(parts[3]);
      var price, qty := ParseTicks(parts[4]), ParseU64(parts[5]);
      var participant := if |parts| >= 7 then ParseU64(parts[6]) else Some(0);
      if sequence.None? || ts.None? || id.None? || price.None? || qty.None? || participant.None? then Throws
      else Parsed(CancelReplaceMessage(MessageHeader(CancelReplace, sequence.value, ts.value),
                                       id.value, price.value, qty.value, participant.value))
  }

  /** nextSnapshotRequest on a line: at least 4 fields. */
  function SnapshotFromLine(line: string): Decoded<SnapshotRequest>
  {
    var parts := Split(line);
    if |parts| < 4 || parts[0] != "SNAPSHOT_REQUEST" then Dropped
    else
      var sequence, ts := ParseU64(parts[1]), ParseU64(parts[2]);
      if sequence.None? || ts.None? then Throws
      else Parsed(SnapshotRequest.SnapshotRequest(MessageHeader(MessageType.SnapshotRequest, sequence.value, ts.value), parts[3]))
  }

  /** The buffer after a `next*` call that decoded a message or dropped a
      line: what follows the first line. Otherwise: the buffer as it was. */
  function BufferAfter<T>(b: string, r: Decoded<T>): string
    requires HasLine(b) || r == NoLine
  {
    if r.Parsed? || r.Dropped? then AfterLine(b) else b
  }

  // ---------------------------------------------------------------------
  // Properties of the decoders

  /** The header is dropped exactly when its type or sequence field is
      empty or the type is unknown; a decoded header carries the type the
      line names. */
  lemma HeaderDropRule(line: string)
    ensures DecodeHeader(line) == Dropped <==>
      Field(Split(line), 0) == "" || Field(Split(line), 1) == "" || TypeOf(Field(Split(line), 0)).None?
    ensures DecodeHeader(line).Parsed? ==> Some(DecodeHeader(line).value.msgType) == TypeOf(Split(line)[0])
  {
  }

  /** A line with no timestamp field, or an empty one, gets timestamp 0. */
  lemma HeaderTimestampDefault(line: string)
    requires Field(Split(line), 2) == ""
    requires DecodeHeader(line).Parsed?
    ensures DecodeHeader(line).value.timestamp == 0
  {
    DecimalRoundTrip(0);
  }

  /** A decoded header is the one a decoded ADD line carries. */
  lemma AddHeaderAgrees(line: string)
    requires AddFromLine(line).Parsed?
    ensures DecodeHeader(line) == Parsed(AddFromLine(line).value.header)
  {
  }

  /** ADD lines: the defaults hold for an 8-field line; any side other than
      "BUY" reads as a sell; the symbol is field 4 verbatim. */
  lemma AddFieldRules(line: string)
    requires AddFromLine(line).Parsed?
    ensures var m := AddFromLine(line).value; var parts := Split(line);
      && |parts| >= 8 && parts[0] == "ADD"
      && m.symbol == parts[4]
      && (m.side == Buy <==> parts[7] == "BUY")
      && (|parts| == 8 ==> m.tif == GTC && m.orderType == Limit && m.participantId == 0
                           && m.triggerPrice == 0 && m.visibleQuantity == m.quantity)
      && (|parts| < 13 ==> m.visibleQuantity == m.quantity)
  {
  }

  /** An unrecognised time-in-force or order-type text keeps the default. */
  lemma AddUnknownWordsKeepDefaults(line: string)
    requires AddFromLine(line).Parsed? && |Split(line)| >= 10
    requires TifOf(Split(line)[8], IOC) == IOC && Split(line)[8] != "IOC"
    requires OrderTypeOf(Split(line)[9], Market) == Market && Split(line)[9] != "MARKET"
    ensures AddFromLine(line).value.tif == GTC && AddFromLine(line).value.orderType == Limit
  {
  }

  /** The minimum field counts: fewer fields drop the line. */
  lemma FieldCountThresholds(line: string)
    ensures |Split(line)| < 8 ==> AddFromLine(line) == Dropped
    ensures |Split(line)| < 4 ==> CancelFromLine(line) == Dropped && SnapshotFromLine(line) == Dropped
    ensures |Split(line)| < 6 ==> CancelReplaceFromLine(line) == Dropped
  {
  }

  /** Cancel and cancel-replace participants default to 0 when their field
      is missing. */
  lemma ParticipantDefaults(line: string)
    ensures CancelFromLine(line).Parsed? && |Split(line)| == 4 ==> CancelFromLine(line).value.participantId == 0
    ensures CancelReplaceFromLine(line).Parsed? && |Split(line)| == 6 ==>
      CancelReplaceFromLine(line).value.participantId == 0
  {
  }

  /** A line decodes as at most one kind of message: the first field
      decides. */
  lemma KindsExclusive(line: string)
    ensures AddFromLine(line).Parsed? ==> !CancelFromLine(line).Parsed? && !CancelReplaceFromLine(line).Parsed?
                                          && !SnapshotFromLine(line).Parsed?
    ensures CancelFromLine(line).Parsed? ==> !CancelReplaceFromLine(line).Parsed? && !SnapshotFromLine(line).Parsed?
    ensures CancelReplaceFromLine(line).Parsed? ==> !SnapshotFromLine(line).Parsed?
  {
  }

  // ---------------------------------------------------------------------
  // The parser

  /** splitLine: the loop that cuts a line at each '|'. */
  method SplitLine(line: string) returns (parts: seq<string>)
    ensures parts == Split(line)
  {
    parts := [];
    var start := 0;
    while true
      invariant 0 <= start <= |line|
      invariant Split(line) == parts + Split(line[start..])
      decreases |line| - start
    {
      var pos := IndexOf(line, '|', start);
      if pos == |line| {
        SplitPlain(line[start..]);
        parts := parts + [line[start..]];
        break;
      } else {
        SplitStep(line, start, pos);
        parts := parts + [line[start..pos]];
        start := pos + 1;
      }
    }
  }

  /** The field before the next '|' and the fields after it. */
  lemma SplitStep(line: string, start: nat, pos: nat)
    requires start <= pos < |line| && line[pos] == '|'
    requires forall j :: start <= j < pos ==> line[j] != '|'
    ensures Split(line[start..]) == [line[start..pos]] + Split(line[pos + 1..])
  {
    assert line[start..] == line[start..pos] + "|" + line[pos + 1..];
    SplitPrefix(line[start..pos], line[pos + 1..]);
  }

  class MessageParser {
    var buffer: string

    constructor ()
      ensures buffer == []
    {
      buffer := [];
    }

    /** appendData: the bytes go at the end. */
    method AppendData(data: string)
      modifies this
      ensures buffer == old(buffer) + data
    {
      buffer := buffer + data;
    }

    /** Erase the first line and its '\n'. */
    method ConsumeLine()
      requires HasLine(buffer)
      modifies this
      ensures buffer == AfterLine(old(buffer))
    {
      buffer := buffer[LineEnd(buffer) + 1..];
    }

    /** nextMessageHeader: peeks the first line's header; a line that
        cannot carry a known message is consumed. */
    method NextMessageHeader() returns (r: Decoded<MessageHeader>)
      modifies this
      ensures !HasLine(old(buffer)) ==> r == NoLine
      ensures HasLine(old(buffer)) ==> r == DecodeHeader(FirstLine(old(buffer)))
      ensures buffer == if r.Dropped? then AfterLine(old(buffer)) else old(buffer)
    {
      var end := LineEnd(buffer);
      if end == |buffer| {
        return NoLine;
      }
      var line := buffer[..end];
      // the three getline reads see the first three fields
      var parts := SplitLine(line);
      var typeStr := Field(parts, 0);
      if typeStr == "" {
        ConsumeLine();
        return Dropped;
      }
      var seqStr := Field(parts, 1);
      if seqStr == "" {
        ConsumeLine();
        return Dropped;
      }
      var tsStr := Field(parts, 2);
      if tsStr == "" {
        tsStr := "0";
      }
      var mt := TypeOf(typeStr);
      if mt.None? {
        ConsumeLine();
        return Dropped;
      }
      var sequence := ParseU64(seqStr);
      if sequence.None? {
        return Throws;
      }
      var ts := ParseU64(tsStr);
      if ts.None? {
        return Throws;
      }
      return Parsed(MessageHeader(mt.value, sequence.value, ts.value));
    }

    /** nextAddMessage. */
    method NextAddMessage() returns (r: Decoded<AddMessage>)
      modifies this
      ensures !HasLine(old(buffer)) ==> r == NoLine
      ensures HasLine(old(buffer)) ==> r == AddFromLine(FirstLine(old(buffer)))
      ensures buffer == BufferAfter(old(buffer), r)
    {
      var end := LineEnd(buffer);
      if end == |buffer| {
        return NoLine;
      }
      var line := buffer[..end];
      var parts := SplitLine(line);
      if |parts| < 8 {
        ConsumeLine();
        return Dropped;
      }
      if parts[0] != "ADD" {
        ConsumeLine();
        return Dropped;
      }
      var sequence := ParseU64(parts[1]);
      var ts := ParseU64(parts[2]);
      var id := ParseU64(parts[3]);
      var price := ParseTicks(parts[5]);
      var qty := ParseU64(parts[6]);
      if sequence.None? || ts.None? || id.None? || price.None? || qty.None? {
        return Throws;
      }
      var side := if parts[7] == "BUY" then Buy else Sell;
      var tif := GTC;
      var orderType := Limit;
      var participant: nat := 0;
      var trigger := 0;
      var visible := qty.value;
      if |parts| >= 9 {
        tif := TifOf(parts[8], tif);
      }
      if |parts| >= 10 {
        orderType := OrderTypeOf(parts[9], orderType);
      }
      if |parts| >= 11 {
        var p := ParseU64(parts[10]);
        if p.None? {
          return Throws;
        }
        participant := p.value;
      }
      if |parts| >= 12 {
        var t := ParseTicks(parts[11]);
        if t.None? {
          return Throws;
        }
        trigger := t.value;
      }
      if |parts| >= 13 {
        var v := ParseU64(parts[12]);
        if v.None? {
          return Throws;
        }
        visible := v.value;
      }
      ConsumeLine();
      return Parsed(AddMessage(MessageHeader(Add, sequence.value, ts.value), id.value, parts[4], price.value,
                               qty.value, side, tif, orderType, participant, trigger, visible));
    }

    /** nextCancelMessage. */
    method NextCancelMessage() returns (r: Decoded<CancelMessage>)
      modifies this
      ensures !HasLine(old(buffer)) ==> r == NoLine
      ensures HasLine(old(buffer)) ==> r == CancelFromLine(FirstLine(old(buffer)))
      ensures buffer == BufferAfter(old(buffer), r)
    {
      var end := LineEnd(buffer);
      if end == |buffer| {
        return NoLine;
      }
      var line := buffer[..end];
      var parts := SplitLine(line);
      if |parts| < 4 || parts[0] != "CANCEL" {
        ConsumeLine();
        return Dropped;
      }
      var sequence := ParseU64(parts[1]);
      var ts := ParseU64(parts[2]);
      var id := ParseU64(parts[3]);
      if sequence.None? || ts.None? || id.None? {
        return Throws;
      }
      var participant: nat := 0;
      if |parts| >= 5 {
        var p := ParseU64(parts[4]);
        if p.None? {
          return Throws;
        }
        participant := p.value;
      }
      ConsumeLine();
      return Parsed(CancelMessage(MessageHeader(Cancel, sequence.value, ts.value), id.value, participant));
    }

    /** nextCancelReplaceMessage. */
    method NextCancelReplaceMessage() returns (r: Decoded<CancelReplaceMessage>)
      modifies this
      ensures !HasLine(old(buffer)) ==> r == NoLine
      ensures HasLine(old(buffer)) ==> r == CancelReplaceFromLine(FirstLine(old(buffer)))
      ensures buffer == BufferAfter(old(buffer), r)
    {
      var end := LineEnd(buffer);
      if end == |buffer| {
        return NoLine;
      }
      var line := buffer[..end];
      var parts := SplitLine(line);
      if |parts| < 6 || parts[0] != "CANCEL_REPLACE" {
        ConsumeLine();
        return Dropped;
      }
      var sequence := ParseU64(parts[1]);
      var ts := ParseU64(parts[2]);
      var id := ParseU64(parts[3]);
      var price := ParseTicks(parts[4]);
      var qty := ParseU64(parts[5]);
      if sequence.None? || ts.None? || id.None? || price.None? || qty.None? {
        return Throws;
      }
      var participant: nat := 0;
      if |parts| >= 7 {
        var p := ParseU64(parts[6]);
        if p.None? {
          return Throws;
        }
        participant := p.value;
      }
      ConsumeLine();
      return Parsed(CancelReplaceMessage(MessageHeader(CancelReplace, sequence.value, ts.value),
                                         id.value, price.value, qty.value, participant));
    }

    /** nextSnapshotRequest. */
    method NextSnapshotRequest() returns (r: Decoded<SnapshotRequest>)
      modifies this
      ensures !HasLine(old(buffer)) ==> r == NoLine
      ensures HasLine(old(buffer)) ==> r == SnapshotFromLine(FirstLine(old(buffer)))
      ensures buffer == BufferAfter(old(buffer), r)
    {
      var end := LineEnd(buffer);
      if end == |buffer| {
        return NoLine;
      }
      var line := buffer[..end];
      var parts := SplitLine(line);
      if |parts| < 4 || parts[0] != "SNAPSHOT_REQUEST" {
        ConsumeLine();
        return Dropped;
      }
      var sequence := ParseU64(parts[1]);
      var ts := ParseU64(parts[2]);
      if sequence.None? || ts.None? {
        return Throws;
      }
      ConsumeLine();
      return Parsed(SnapshotRequest.SnapshotRequest(MessageHeader(MessageType.SnapshotRequest, sequence.value, ts.value), parts[3]));
    }
  }
}
