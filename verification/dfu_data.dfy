/**
 * The firmware-update file and its state (core/dfu_data.py): the file is cut
 * into 16-byte lines, the first of which is a header naming the entity to
 * update, and a 2-bit sequence number tags the data lines.
 *
 * Opening and reading the file are I/O: `SetDfuFile` receives what `open`
 * and `read` produced, None when `open` raised OSError.
 */
module DfuFile {
  import opened Wrappers
  import opened Bits

  /** The bytes of one DFU line. */
  const LineSize := 16

  /** The length of the magic string field of the header. */
  const MagicLength := 10

  datatype DfuData = DfuData(
    filename: string,
    readyForUpdate: bool,
    fileLoaded: bool,
    content: Option<seq<int>>,
    totLine: nat,
    seqNb: int,
    entityIdx: int,
    encrypt: int,
    magicStr: string,
    flag: int,
    securLvl: int,
    dfuOngoing: bool)

  /** `reset`: no file, nothing ready, every number 0. */
  function Reset(): (d: DfuData)
    ensures !d.readyForUpdate && !d.fileLoaded && !d.dfuOngoing
    ensures d.content.None? && d.filename == "" && d.magicStr == ""
    ensures d.totLine == 0 && d.seqNb == 0
    ensures d.entityIdx == 0 && d.encrypt == 0 && d.flag == 0 && d.securLvl == 0
  {
    DfuData("", false, false, None, 0, 0, 0, 0, "", 0, 0, false)
  }

  /** `extract_line(n)`: bytes 16n up to 16n + 16, fewer at the end of the file. */
  function ExtractLine(content: seq<int>, n: nat): (line: seq<int>)
    ensures |line| <= LineSize
    ensures LineSize * (n + 1) <= |content| ==> |line| == LineSize
    ensures forall i :: 0 <= i < |line| ==> LineSize * n + i < |content| && line[i] == content[LineSize * n + i]
  {
    Slice(content, LineSize * n, LineSize * (n + 1))
  }

  /** `int(len(content) / 16)`: the number of whole lines. */
  function TotLine(content: seq<int>): (t: nat)
    ensures LineSize * t <= |content| < LineSize * (t + 1)
  {
    |content| / LineSize
  }

  /** Every line the update sends is a whole line. */
  lemma {:induction false} SentLinesAreWhole(content: seq<int>, n: nat)
    requires n < TotLine(content)
    ensures |ExtractLine(content, n)| == LineSize
  {
    MulMono(n + 1, TotLine(content), LineSize);
  }

  /** The lines from `from` on, up to `to`, in order. */
  function Lines(content: seq<int>, from: nat, to: nat): seq<int>
    decreases if to > from then to - from else 0
  {
    if from >= to then [] else ExtractLine(content, from) + Lines(content, from + 1, to)
  }

  /**
   * The lines sent, put back together, are the file without its trailing
   * partial line: nothing is repeated, reordered or skipped, and the bytes
   * past the last whole line never go out.
   */
  lemma {:induction false} LinesReassemble(content: seq<int>)
    ensures Lines(content, 0, TotLine(content)) == content[..LineSize * TotLine(content)]
  {
    LinesFrom(content, 0, TotLine(content));
  }

  lemma {:induction false} LinesFrom(content: seq<int>, from: nat, to: nat)
    requires from <= to && LineSize * to <= |content|
    ensures Lines(content, from, to) == content[LineSize * from..LineSize * to]
    decreases if to > from then to - from else 0
  {
    if from < to {
      LinesFrom(content, from + 1, to);
      MulMono(from + 1, to, LineSize);
      var line := ExtractLine(content, from);
      assert line == content[LineSize * from..LineSize * (from + 1)];
      assert content[LineSize * from..LineSize * to]
          == content[LineSize * from..LineSize * (from + 1)] + content[LineSize * (from + 1)..LineSize * to];
    }
  }

  /**
   * The magic-string loop from field position `i` on: characters are added
   * up to a zero byte or the end of the field. A header too short for the
   * next byte raises IndexError with the characters read so far kept.
   */
  function MagicFrom(first: seq<int>, i: nat, acc: string): (r: (string, Result<()>))
    requires IsBytes(first)
    requires i <= MagicLength
    ensures |r.0| >= |acc| && r.0[..|acc|] == acc
    ensures |r.0| - |acc| <= MagicLength - i
    ensures forall j :: |acc| <= j < |r.0| ==>
      2 + i + (j - |acc|) < |first| && r.0[j] as int == first[2 + i + (j - |acc|)] != 0
    ensures r.1.Raised? ==> r.1.exc == IndexError
    decreases MagicLength - i
  {
    if i >= MagicLength then (acc, Ok(()))
    else if 2 + i >= |first| then (acc, Raised(IndexError))
    else if first[2 + i] == 0 then (acc, Ok(()))
    else
      var r := MagicFrom(first, i + 1, acc + [first[2 + i] as char]);
      assert (acc + [first[2 + i] as char])[..|acc|] == acc;
      r
  }

  /** A header of a whole line: the magic string stops exactly at the first zero byte. */
  lemma {:induction false} MagicStopsAtZero(first: seq<int>, i: nat, acc: string)
    requires IsBytes(first) && |first| >= LineSize && i <= MagicLength
    ensures var r := MagicFrom(first, i, acc);
      r.1.Ok? && (|r.0| - |acc| < MagicLength - i ==> first[2 + i + (|r.0| - |acc|)] == 0)
    decreases MagicLength - i
  {
    if i < MagicLength && first[2 + i] != 0 {
      MagicStopsAtZero(first, i + 1, acc + [first[2 + i] as char]);
    }
  }

  /**
   * `extract_info`: the header fields in the order the source assigns them,
   * and then `ready_for_update`. A field past the end of a short file
   * raises IndexError after the fields before it were stored.
   */
  function ExtractInfo(d: DfuData, content: seq<int>): (r: (DfuData, Result<()>))
    requires IsBytes(content)
    ensures r.1.Raised? ==> r.1.exc == IndexError && r.0.readyForUpdate == d.readyForUpdate
    ensures r.1.Ok? <==> (|content| >= 14 && MagicFrom(ExtractLine(content, 0), 0, "").1.Ok?)
    ensures r.1.Ok? ==>
      var first := ExtractLine(content, 0);
      && r.0.readyForUpdate
      && r.0.entityIdx == first[0] && r.0.encrypt == first[1]
      && r.0.flag == first[12] && r.0.securLvl == first[13]
      && r.0.magicStr == MagicFrom(first, 0, "").0
    ensures r.0 == d.(entityIdx := r.0.entityIdx, encrypt := r.0.encrypt, magicStr := r.0.magicStr,
                      flag := r.0.flag, securLvl := r.0.securLvl, readyForUpdate := r.0.readyForUpdate)
    ensures !d.readyForUpdate ==> (r.0.readyForUpdate <==> r.1.Ok?)
  {
    var first := ExtractLine(content, 0);
    if |first| < 1 then (d, Raised(IndexError))
    else
      var d1 := d.(entityIdx := first[0]);
      if |first| < 2 then (d1, Raised(IndexError))
      else
        var d2 := d1.(encrypt := first[1], magicStr := "");
        var m := MagicFrom(first, 0, "");
        var d3 := d2.(magicStr := m.0);
        if m.1.Raised? then (d3, Raised(IndexError))
        else if |first| < 13 then (d3, Raised(IndexError))
        else
          var d4 := d3.(flag := first[12]);
          if |first| < 14 then (d4, Raised(IndexError))
          else (d4.(securLvl := first[13], readyForUpdate := true), Ok(()))
  }

  /** A file of at least one whole line always yields a header. */
  lemma {:induction false} WholeHeaderDecodes(d: DfuData, content: seq<int>)
    requires IsBytes(content) && |content| >= LineSize
    ensures ExtractInfo(d, content).1.Ok?
    ensures |ExtractInfo(d, content).0.magicStr| <= MagicLength
  {
    MagicStopsAtZero(ExtractLine(content, 0), 0, "");
  }

  /**
   * `set_dfu_file`: resets everything first. When the file cannot be opened
   * the result is false and nothing is loaded; otherwise the file is kept,
   * the sequence number restarts at 0 and the header is decoded, whose
   * IndexError on a short file escapes.
   */
  function SetDfuFile(d: DfuData, filename: string, file: Option<seq<int>>): (r: (DfuData, Result<bool>))
    requires file.Some? ==> IsBytes(file.value)
    ensures file.None? ==> r == (Reset(), Ok(false))
    ensures file.Some? ==>
      && r.0.fileLoaded && r.0.seqNb == 0 && r.0.filename == filename
      && r.0.content == file && r.0.totLine == TotLine(file.value)
      && !r.0.dfuOngoing
      && (r.1.Ok? <==> r.0.readyForUpdate)
      && (r.1.Ok? ==> r.1.value)
      && (r.1.Raised? ==> r.1.exc == IndexError)
  {
    var d0 := Reset();
    match file
    case None => (d0, Ok(false))
    case Some(bytes) =>
      var d1 := d0.(filename := filename, content := Some(bytes), totLine := TotLine(bytes),
                    fileLoaded := true, seqNb := 0);
      var x := ExtractInfo(d1, bytes);
      match x.1
      case Ok(_) => (x.0, Ok(true))
      case Raised(e) => (x.0, Raised(e))
  }

  /**
   * `inc_seqNb`: 0, 1, 2, 3 and back to 0. From any value reachable by
   * the update it stays in 0..3.
   */
  function IncSeqNb(d: DfuData): (d': DfuData)
    ensures d' == d.(seqNb := d'.seqNb)
    ensures 0 <= d.seqNb < 4 ==> d'.seqNb == (d.seqNb + 1) % 4
    ensures d.seqNb >= -1 ==> 0 <= d'.seqNb < 4
  {
    var s := d.seqNb + 1;
    d.(seqNb := if s >= 4 then 0 else s)
  }

  /** After n increments from 0..3 the number is n further round the cycle. */
  lemma {:induction false} IncSeqNbCycles(d: DfuData, n: nat)
    requires 0 <= d.seqNb < 4
    ensures IncSeqNbTimes(d, n).seqNb == (d.seqNb + n) % 4
    decreases n
  {
    if n > 0 {
      IncSeqNbCycles(IncSeqNb(d), n - 1);
    }
  }

  function IncSeqNbTimes(d: DfuData, n: nat): DfuData
    decreases n
  {
    if n == 0 then d else IncSeqNbTimes(IncSeqNb(d), n - 1)
  }

  /** `get_dfu_info_list`. */
  function DfuInfoList(d: DfuData): (int, string, int, int, int)
  {
    (d.entityIdx, d.magicStr, d.flag, d.securLvl, d.totLine)
  }
}
