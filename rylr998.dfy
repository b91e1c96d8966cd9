/**
 * The text side of the RYLR998 LoRa transceiver driver used by the leaf
 * node: turning a `+RCV=address,length,data,rssi,snr` report into a frame
 * record, building the `AT+SEND=` command, and reading its reply.
 */
module Rylr998 {
  import opened Wrappers
  import opened Text

  /** One received radio frame; the SNR is kept as its text (see README). */
  datatype RcvFrame = RcvFrame(address: int, length: int, data: string, rssi: int, snr: string)

  /**
   * What `receive_data` gives back for one line: None, a list of frames
   * (only ever one), or the ValueError `int()` raises on a non-numeric field.
   */
  datatype Reception = NoFrames | Frames(frames: seq<RcvFrame>) | NotANumber

  const RcvPrefix := "+RCV="
  const OkLine := "+OK"

  /** The comma-separated fields after the `+RCV=` prefix of a stripped line. */
  function RcvFields(line: string): seq<string>
    requires StartsWith(line, RcvPrefix)
  {
    Split(Strip(line[|RcvPrefix|..]), ',')
  }

  /** The parse inside `receive_data` of one line read from the serial port. */
  function ReceiveData(raw: string): (r: Reception)
    ensures r.Frames? ==> StartsWith(Strip(raw), RcvPrefix)
    ensures r.Frames? ==> |r.frames| == 1
    ensures r.Frames? ==> ',' !in r.frames[0].data
    ensures r != NoFrames ==> StartsWith(Strip(raw), RcvPrefix) && |RcvFields(Strip(raw))| >= 5
  {
    var line := Strip(raw);
    if line == [] || !StartsWith(line, RcvPrefix) then NoFrames
    else
      var parts := RcvFields(line);
      if |parts| < 5 then NoFrames
      else
        match (ParseInt(parts[0]), ParseInt(parts[1]), ParseInt(parts[3]))
        case (Some(address), Some(length), Some(rssi)) =>
          Frames([RcvFrame(address, length, parts[2], rssi, parts[4])])
        case _ => NotANumber
  }

  /** The report line the module writes for a frame. */
  function RcvLine(f: RcvFrame): string {
    RcvPrefix + Join([IntToString(f.address), IntToString(f.length), f.data, IntToString(f.rssi), f.snr], ',')
  }

  lemma IntToStringShape(i: int)
    ensures ',' !in IntToString(i)
    ensures |IntToString(i)| > 0
    ensures !IsSpace(IntToString(i)[0]) && !IsSpace(IntToString(i)[|IntToString(i)| - 1])
  {
    var s := IntToString(i);
    assert forall k :: 0 <= k < |s| ==> s[k] == '-' || IsDigit(s[k]);
  }

  lemma JoinFive(a: string, b: string, c: string, d: string, e: string, sep: char)
    ensures Join([a, b, c, d, e], sep) == a + [sep] + (b + [sep] + (c + [sep] + (d + [sep] + e)))
  {
    var de, cde, bcde := [d, e], [c, d, e], [b, c, d, e];
    assert de[1..] == [e];
    assert Join(de, sep) == d + [sep] + e;
    assert cde[1..] == de;
    assert Join(cde, sep) == c + [sep] + Join(de, sep);
    assert bcde[1..] == cde;
    assert Join(bcde, sep) == b + [sep] + Join(cde, sep);
    assert [a, b, c, d, e][1..] == bcde;
  }

  /** The body of a report line neither starts nor ends with whitespace. */
  lemma RcvBodyEnds(f: RcvFrame, body: string)
    requires f.snr == [] || !IsSpace(f.snr[|f.snr| - 1])
    requires body == Join([IntToString(f.address), IntToString(f.length), f.data, IntToString(f.rssi), f.snr], ',')
    ensures |body| > 0 && !IsSpace(body[0]) && !IsSpace(body[|body| - 1])
  {
    var a, l, r := IntToString(f.address), IntToString(f.length), IntToString(f.rssi);
    IntToStringShape(f.address);
    JoinFive(a, l, f.data, r, f.snr, ',');
    var tail := r + [','] + f.snr;
    assert |tail| > 0 && tail[|tail| - 1] == if f.snr == [] then ',' else f.snr[|f.snr| - 1];
    var rest := l + [','] + (f.data + [','] + tail);
    assert body == a + [','] + rest;
    assert body[0] == a[0];
    assert body[|body| - 1] == tail[|tail| - 1];
  }

  /** The fields of a report line are the five values it was written from. */
  lemma RcvLineFields(f: RcvFrame)
    requires ',' !in f.data && ',' !in f.snr
    requires f.snr == [] || !IsSpace(f.snr[|f.snr| - 1])
    ensures Strip(RcvLine(f)) == RcvLine(f)
    ensures StartsWith(RcvLine(f), RcvPrefix)
    ensures RcvFields(RcvLine(f)) == [IntToString(f.address), IntToString(f.length), f.data, IntToString(f.rssi), f.snr]
  {
    var parts := [IntToString(f.address), IntToString(f.length), f.data, IntToString(f.rssi), f.snr];
    IntToStringShape(f.address);
    IntToStringShape(f.length);
    IntToStringShape(f.rssi);
    var body := Join(parts, ',');
    RcvBodyEnds(f, body);
    StripUnchanged(body);
    var line := RcvLine(f);
    assert line == RcvPrefix + body;
    assert line[0] == '+' && line[|line| - 1] == body[|body| - 1];
    StripUnchanged(line);
    assert line[|RcvPrefix|..] == body;
    SplitJoin(parts, ',');
  }

  /**
   * A report line is read back into exactly the frame it reports, field by
   * field in the order address, length, data, rssi, snr, provided data and
   * snr hold no comma and the snr does not end in whitespace.
   */
  lemma ReceiveRcvLine(f: RcvFrame)
    requires ',' !in f.data && ',' !in f.snr
    requires f.snr == [] || !IsSpace(f.snr[|f.snr| - 1])
    ensures ReceiveData(RcvLine(f)) == Frames([f])
  {
    RcvLineFields(f);
    ParseIntToString(f.address);
    ParseIntToString(f.length);
    ParseIntToString(f.rssi);
  }

  /** `f"AT+SEND={address},{len(data)},{data}"`. */
  function SendCommand(address: int, data: string): string {
    "AT+SEND=" + IntToString(address) + "," + IntToString(|data|) + "," + data
  }

  /**
   * The command carries the address and the length of the data as its first
   * two numeric fields, and ends with exactly the data, so the module can
   * find the data by its length even when it contains commas.
   */
  lemma SendCommandReadBack(address: int, data: string)
    ensures StartsWith(SendCommand(address, data), "AT+SEND=")
    ensures |Split(SendCommand(address, data)[8..], ',')| >= 3
    ensures ParseInt(Split(SendCommand(address, data)[8..], ',')[0]) == Some(address)
    ensures ParseInt(Split(SendCommand(address, data)[8..], ',')[1]) == Some(|data|)
    ensures SendCommand(address, data)[|SendCommand(address, data)| - |data|..] == data
  {
    var a, l := IntToString(address), IntToString(|data|);
    IntToStringShape(address);
    IntToStringShape(|data|);
    CommandLayout(a, l, data);
    SplitTwoFields(a, l, data);
    ParseIntToString(address);
    ParseIntToString(|data|);
  }

  /** The command text is the `AT+SEND=` prefix, then the two fields and the data. */
  lemma CommandLayout(a: string, l: string, data: string)
    ensures var cmd := "AT+SEND=" + a + "," + l + "," + data;
      && StartsWith(cmd, "AT+SEND=")
      && cmd[8..] == a + [','] + (l + [','] + data)
      && cmd[|cmd| - |data|..] == data
  {
    var cmd := "AT+SEND=" + a + "," + l + "," + data;
    assert cmd == "AT+SEND=" + (a + [','] + (l + [','] + data));
  }

  /** Two comma-free fields in front of arbitrary data are the first two parts of its split. */
  lemma SplitTwoFields(a: string, l: string, data: string)
    requires ',' !in a && ',' !in l
    ensures |Split(a + [','] + (l + [','] + data), ',')| >= 3
    ensures Split(a + [','] + (l + [','] + data), ',')[0] == a
    ensures Split(a + [','] + (l + [','] + data), ',')[1] == l
  {
    SplitAtFirstSep(a, ',', l + [','] + data);
    SplitAtFirstSep(l, ',', data);
  }

  /** `send_data`'s result: the response lines when one of them is exactly `+OK`, else None. */
  function SendDataReply(response: Option<seq<string>>): (r: Option<seq<string>>)
    ensures r.Some? <==> response.Some? && OkLine in response.value
    ensures r.Some? ==> r == response
  {
    if response.Some? && |response.value| > 0 && OkLine in response.value then response else None
  }
}
