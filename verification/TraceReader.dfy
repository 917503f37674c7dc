/** Walking over a trace file. A function says what a pointer walk over
    [p, end) finds; the method of the same purpose is the walk itself, and is
    proved to return what the function says. */
module TraceReader {
  import opened CText
  import opened Trace

  /** trace_skip_counted_block: where the text after the counted block that
      starts on the line at `p` begins, if one does. */
  function SkipBlock(t: string, p: nat, end: nat): (r: Option<nat>)
    requires p <= end <= |t|
    ensures r.Some? ==> p < r.value <= end
  {
    var lineEnd := LineEnd(t, p, end);
    var b := FindIn(t, p, lineEnd, BEGIN_BYTES);
    if b.None? || b.value == p || b.value - p > 96 then None
    else
      var bytes := b.value + |BEGIN_BYTES|;
      var (declared, stop) := StrToUll(t, bytes);
      if stop == bytes || stop > lineEnd then None
      else AfterMarker(t, NextLine(t, p, end), end, declared, t[p..b.value] + "_END")
  }

  /** Skips `declared` characters, one line feed if there is one, and the line
      that starts with `marker`. */
  function AfterMarker(t: string, content: nat, end: nat, declared: nat, marker: string): (r: Option<nat>)
    requires content <= end <= |t|
    ensures r.Some? ==> content <= r.value <= end
  {
    if declared > end - content then None
    else
      var m := SkipNewline(t, content + declared, end);
      if m + |marker| <= end && At(t, m, marker) then Some(NextLine(t, m + |marker|, end)) else None
  }

  function SkipNewline(t: string, p: nat, end: nat): (m: nat)
    requires p <= end <= |t|
    ensures p <= m <= end
  {
    if p < end && t[p] == '\n' then p + 1 else p
  }

  /** The line at `p`, which ends before `end`, starts with `prefix`. */
  predicate LineStarts(t: string, p: nat, end: nat, prefix: string)
    requires p <= end <= |t|
  {
    p + |prefix| <= LineEnd(t, p, end) && At(t, p, prefix)
  }

  /** trace_find_next_case: the next case header outside counted blocks. */
  function NextCase(t: string, p: nat, end: nat): (r: Option<nat>)
    requires p <= end <= |t|
    ensures r.Some? ==> p <= r.value < end && LineStarts(t, r.value, end, CASE_MARKER)
    decreases end - p
  {
    if p == end then None
    else
      var skip := SkipBlock(t, p, end);
      if skip.Some? then NextCase(t, skip.value, end)
      else if LineStarts(t, p, end, CASE_MARKER) then Some(p)
      else NextCase(t, NextLine(t, p, end), end)
  }

  /** trace_find_block_begin: the first unskipped line that starts with `tag`. */
  function BlockBegin(t: string, p: nat, end: nat, tag: string): (r: Option<nat>)
    requires p <= end <= |t|
    ensures r.Some? ==> p <= r.value < end && LineStarts(t, r.value, end, tag)
    decreases end - p
  {
    if p == end then None
    else if LineStarts(t, p, end, tag) then Some(p)
    else
      var skip := SkipBlock(t, p, end);
      BlockBegin(t, if skip.Some? then skip.value else NextLine(t, p, end), end, tag)
  }

  /** copy_span: trailing line breaks stripped, cut to the destination's capacity. */
  function CopySpan(t: string, start: nat, stop: nat, dstlen: nat): string
    requires start <= stop <= |t|
    decreases stop
  {
    if stop > start && (t[stop - 1] == '\r' || t[stop - 1] == '\n') then CopySpan(t, start, stop - 1, dstlen)
    else Held(t[start..stop], dstlen)
  }

  /** trace_get_line_field: the rest of the first line that starts with `key`. */
  function LineField(t: string, p: nat, end: nat, key: string, dstlen: nat): Option<string>
    requires p <= end <= |t|
    decreases end - p
  {
    if p == end then None
    else if LineStarts(t, p, end, key) then Some(CopySpan(t, p + |key|, LineEnd(t, p, end), dstlen))
    else LineField(t, NextLine(t, p, end), end, key, dstlen)
  }

  /** trace_copy_model_output on one case. */
  function ModelOutput(t: string, start: nat, end: nat): Option<string>
    requires start <= end <= |t|
  {
    var begin := BlockBegin(t, start, end, OUTPUT_BEGIN);
    if begin.None? then None else BlockText(t, begin.value, end)
  }

  function BlockText(t: string, b: nat, end: nat): Option<string>
    requires b <= end <= |t|
  {
    var lineEnd := LineEnd(t, b, end);
    if lineEnd == end then None
    else
      var bytes := FindIn(t, b, lineEnd, "bytes=");
      if bytes.Some? then CountedText(t, bytes.value + 6, lineEnd, end)
      else
        // traces written before the byte count was introduced
        var finish := FindIn(t, lineEnd + 1, end, "\n" + OUTPUT_END);
        if finish.Some? then Some(t[lineEnd + 1..finish.value]) else None
  }

  /** The text of the block whose byte count is at `bytes`. */
  function CountedText(t: string, bytes: nat, lineEnd: nat, end: nat): Option<string>
    requires bytes <= lineEnd < end <= |t|
  {
    var (declared, stop) := StrToUll(t, bytes);
    var content := lineEnd + 1;
    if stop == bytes || stop > lineEnd || declared > end - content then None
    else
      var m := SkipNewline(t, content + declared, end);
      if m + |OUTPUT_END| <= end && At(t, m, OUTPUT_END) then Some(t[content..content + declared]) else None
  }

  // ---- the walks ----

  method ScanLineEnd(t: string, p: nat, end: nat) returns (e: nat)
    requires p <= end <= |t|
    ensures e == LineEnd(t, p, end)
  {
    e := p;
    while e < end && t[e] != '\n'
      invariant p <= e <= end && LineEnd(t, p, end) == LineEnd(t, e, end)
    {
      e := e + 1;
    }
  }

  method SkipAfterMarker(t: string, content: nat, end: nat, declared: nat, marker: string) returns (r: Option<nat>)
    requires content <= end <= |t|
    ensures r == AfterMarker(t, content, end, declared, marker)
  {
    if declared > end - content {
      return None;
    }
    var m := content + declared;
    if m < end && t[m] == '\n' {
      m := m + 1;
    }
    if end - m < |marker| || t[m..m + |marker|] != marker {
      return None;
    }
    var afterLine := ScanLineEnd(t, m + |marker|, end);
    return Some(if afterLine < end then afterLine + 1 else end);
  }

  method SkipCountedBlock(t: string, line: nat, lineEnd: nat, end: nat) returns (r: Option<nat>)
    requires line <= end <= |t| && lineEnd == LineEnd(t, line, end)
    ensures r == SkipBlock(t, line, end)
  {
    hide StrToUll, LineEnd, FindIn, AfterMarker;
    var begin := BoundedStrstr(t, line, lineEnd, BEGIN_BYTES);
    if begin.None? || begin.value == line || begin.value - line > 96 {
      return None;
    }
    var marker := t[line..begin.value] + "_END";
    var bytes := begin.value + |BEGIN_BYTES|;
    var (declared, stop) := StrToUll(t, bytes);
    if stop == bytes || stop > lineEnd {
      return None;
    }
    r := SkipAfterMarker(t, if lineEnd < end then lineEnd + 1 else end, end, declared, marker);
  }

  method FindNextCase(t: string, start: nat, end: nat) returns (r: Option<nat>)
    requires start <= end <= |t|
    ensures r == NextCase(t, start, end)
  {
    hide SkipBlock, LineEnd;
    var p := start;
    while p < end
      invariant start <= p <= end
      invariant NextCase(t, start, end) == NextCase(t, p, end)
      decreases end - p
    {
      var lineEnd := ScanLineEnd(t, p, end);
      var skip := SkipCountedBlock(t, p, lineEnd, end);
      if skip.Some? {
        p := skip.value;
        continue;
      }
      if lineEnd - p >= |CASE_MARKER| && t[p..p + |CASE_MARKER|] == CASE_MARKER {
        return Some(p);
      }
      p := if lineEnd < end then lineEnd + 1 else end;
    }
    return None;
  }

  method FindBlockBegin(t: string, start: nat, end: nat, tag: string) returns (r: Option<nat>)
    requires start <= end <= |t|
    ensures r == BlockBegin(t, start, end, tag)
  {
    hide SkipBlock, LineEnd;
    var p := start;
    while p < end
      invariant start <= p <= end
      invariant BlockBegin(t, start, end, tag) == BlockBegin(t, p, end, tag)
      decreases end - p
    {
      var lineEnd := ScanLineEnd(t, p, end);
      if lineEnd - p >= |tag| && t[p..p + |tag|] == tag {
        return Some(p);
      }
      var skip := SkipCountedBlock(t, p, lineEnd, end);
      if skip.Some? {
        p := skip.value;
        continue;
      }
      p := if lineEnd < end then lineEnd + 1 else end;
    }
    return None;
  }

  lemma {:induction false} NoRoom(t: string, start: nat, stop: nat)
    requires start <= stop <= |t|
    ensures CopySpan(t, start, stop, 0) == ""
    decreases stop
  {
    if stop > start && (t[stop - 1] == '\r' || t[stop - 1] == '\n') {
      NoRoom(t, start, stop - 1);
    }
  }

  method CopySpanTo(t: string, start: nat, stop: nat, dstlen: nat) returns (dst: string)
    requires start <= stop <= |t|
    ensures dst == CopySpan(t, start, stop, dstlen)
  {
    var end := stop;
    if dstlen == 0 {
      NoRoom(t, start, stop);
      return "";
    }
    while end > start && (t[end - 1] == '\r' || t[end - 1] == '\n')
      invariant start <= end <= stop
      invariant CopySpan(t, start, stop, dstlen) == CopySpan(t, start, end, dstlen)
    {
      end := end - 1;
    }
    var n := end - start;
    if n >= dstlen {
      n := dstlen - 1;
    }
    assert t[start..end][..n] == t[start..start + n];
    dst := t[start..start + n];
  }

  method GetLineField(t: string, start: nat, end: nat, key: string, dstlen: nat) returns (r: Option<string>)
    requires start <= end <= |t|
    ensures r == LineField(t, start, end, key, dstlen)
  {
    var p := start;
    while p < end
      invariant start <= p <= end
      invariant LineField(t, start, end, key, dstlen) == LineField(t, p, end, key, dstlen)
      decreases end - p
    {
      var lineEnd := ScanLineEnd(t, p, end);
      if lineEnd - p >= |key| && t[p..p + |key|] == key {
        var dst := CopySpanTo(t, p + |key|, lineEnd, dstlen);
        return Some(dst);
      }
      p := if lineEnd < end then lineEnd + 1 else end;
    }
    return None;
  }

  method CopyCountedText(t: string, bytes: nat, lineEnd: nat, end: nat) returns (r: Option<string>)
    requires bytes <= lineEnd < end <= |t|
    ensures r == CountedText(t, bytes, lineEnd, end)
  {
    hide StrToUll;
    var (declared, stop) := StrToUll(t, bytes);
    var content := lineEnd + 1;
    if stop == bytes || stop > lineEnd || declared > end - content {
      return None;
    }
    var m := content + declared;
    if m < end && t[m] == '\n' {
      m := m + 1;
    }
    if end - m < |OUTPUT_END| || t[m..m + |OUTPUT_END|] != OUTPUT_END {
      return None;
    }
    return Some(t[content..content + declared]);
  }

  method CopyModelOutput(t: string, start: nat, end: nat) returns (r: Option<string>)
    requires start <= end <= |t|
    ensures r == ModelOutput(t, start, end)
  {
    hide CountedText, LineEnd, FindIn, BlockBegin;
    var begin := FindBlockBegin(t, start, end, OUTPUT_BEGIN);
    if begin.None? {
      return None;
    }
    var b := begin.value;
    var lineEnd := ScanLineEnd(t, b, end);
    if lineEnd == end {
      return None;
    }
    var content := lineEnd + 1;
    var bytes := BoundedStrstr(t, b, lineEnd, "bytes=");
    if bytes.Some? {
      r := CopyCountedText(t, bytes.value + 6, lineEnd, end);
      return;
    }
    var finish := BoundedStrstr(t, content, end, "\n" + OUTPUT_END);
    if finish.None? {
      return None;
    }
    return Some(t[content..finish.value]);
  }
}
