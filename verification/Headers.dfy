/** The header texts a download reads: decimal numbers and the Content-Range form of section 14.4 of RFC 9110. */
module Headers {
  import opened Wrappers

  // ---- Decimal numbers ----

  predicate IsDigit(c: char) {
    '0' <= c <= '9'
  }

  /** `str.isdigit` on ASCII text. */
  predicate IsNumber(s: string) {
    s != "" && forall i :: 0 <= i < |s| ==> IsDigit(s[i])
  }

  function DigitValue(c: char): nat
    requires IsDigit(c)
  {
    c as int - '0' as int
  }

  /** `int(s)` of a digit string. */
  function Value(s: string): nat
    requires forall i :: 0 <= i < |s| ==> IsDigit(s[i])
  {
    if s == "" then 0 else Value(s[..|s| - 1]) * 10 + DigitValue(s[|s| - 1])
  }

  function Print(n: nat): string {
    if n < 10 then [('0' as int + n) as char] else Print(n / 10) + [('0' as int + n % 10) as char]
  }

  lemma {:induction false} PrintValue(n: nat)
    ensures IsNumber(Print(n)) && Value(Print(n)) == n
  {
    if n >= 10 {
      PrintValue(n / 10);
      assert Print(n)[..|Print(n)| - 1] == Print(n / 10);
    } else {
      assert Print(n)[..0] == "";
    }
  }

  // ---- Text ----

  /** `s.split("/")[-1]` */
  function AfterLastSlash(s: string): string {
    if s == "" || s[|s| - 1] == '/' then "" else AfterLastSlash(s[..|s| - 1]) + [s[|s| - 1]]
  }

  predicate HasSlash(s: string) {
    exists i :: 0 <= i < |s| && s[i] == '/'
  }

  predicate IsBlank(c: char) {
    c == ' ' || '\t' <= c <= '\r'
  }

  /** `s.strip()` on ASCII text. */
  function Strip(s: string): string
    decreases |s|
  {
    if s == "" then ""
    else if IsBlank(s[0]) then Strip(s[1..])
    else if IsBlank(s[|s| - 1]) then Strip(s[..|s| - 1])
    else s
  }

  lemma {:induction false} AfterSlash(before: string, tail: string)
    requires forall i :: 0 <= i < |tail| ==> tail[i] != '/'
    ensures HasSlash(before + "/" + tail) && AfterLastSlash(before + "/" + tail) == tail
  {
    var s := before + "/" + tail;
    assert s[|before|] == '/';
    if tail != "" {
      AfterSlash(before, tail[..|tail| - 1]);
      assert s[..|s| - 1] == before + "/" + tail[..|tail| - 1];
    }
  }

  /** The part of a response that `_total_size_from_response` looks at. */
  datatype Head = Head(status: nat, contentRange: Option<string>, contentLength: Option<string>)

  predicate ReadableLength(h: Head) {
    h.contentLength.Some? ==> IsNumber(h.contentLength.value)
  }

  /** `_total_size_from_response` */
  function TotalSize(h: Head, bytesHave: nat): Option<nat>
    requires ReadableLength(h)
  {
    var tail := if h.contentRange.Some? then Strip(AfterLastSlash(h.contentRange.value)) else "";
    if h.contentRange.Some? && HasSlash(h.contentRange.value) && IsNumber(tail) then Some(Value(tail))
    else if h.contentLength.Some? then
      Some(Value(h.contentLength.value) + if h.status == 206 then bytesHave else 0)
    else None
  }

  /** The Content-Range of the bytes from `first` up to but without `end` of a representation of `size` bytes, its total
      told or not. */
  function ContentRange(first: nat, end: nat, size: nat, told: bool): string
    requires first < end
  {
    "bytes " + Print(first) + "-" + Print(end - 1) + "/" + if told then Print(size) else "*"
  }

  /** The head of a full answer about content of `size` bytes. */
  predicate WholeHead(h: Head, size: nat) {
    h.status == 200 && h.contentRange.None? && (h.contentLength.None? || h.contentLength == Some(Print(size)))
  }

  predicate TellsTotal(h: Head, size: nat, first: nat, end: nat)
    requires first < end
  {
    h.contentRange == Some(ContentRange(first, end, size, true))
  }

  /** The head of an answer to a request from `start` on that encloses the bytes `first` up to `end`. A server may send
      any part of what was asked for. */
  predicate PartialHead(h: Head, size: nat, start: nat, first: nat, end: nat) {
    && h.status == 206 && 0 < start <= first < end <= size
    && (TellsTotal(h, size, first, end) || h.contentRange == Some(ContentRange(first, end, size, false)))
    && (h.contentLength.None? || h.contentLength == Some(Print(end - first)))
  }

  lemma NumberStripped(s: string)
    requires IsNumber(s)
    ensures Strip(s) == s && forall i :: 0 <= i < |s| ==> s[i] != '/'
  {
    assert IsDigit(s[0]) && IsDigit(s[|s| - 1]);
  }

  lemma RangeTells(first: nat, end: nat, size: nat)
    requires first < end
    ensures var r := ContentRange(first, end, size, true);
            HasSlash(r) && Strip(AfterLastSlash(r)) == Print(size) && IsNumber(Print(size)) && Value(Print(size)) == size
  {
    PrintValue(size);
    var before := "bytes " + Print(first) + "-" + Print(end - 1);
    NumberStripped(Print(size));
    AfterSlash(before, Print(size));
    assert ContentRange(first, end, size, true) == before + "/" + Print(size);
  }

  lemma RangeHides(first: nat, end: nat, size: nat)
    requires first < end
    ensures var r := ContentRange(first, end, size, false); Strip(AfterLastSlash(r)) == "*" && !IsNumber("*")
    ensures ContentRange(first, end, size, false) != ContentRange(first, end, size, true)
  {
    var before := "bytes " + Print(first) + "-" + Print(end - 1);
    AfterSlash(before, "*");
    assert ContentRange(first, end, size, false) == before + "/" + "*";
    assert !IsDigit("*"[0]) && Strip("*") == "*";
    RangeTells(first, end, size);
    assert !IsNumber("*");
  }

  /** A full answer tells the right size or none. */
  lemma WholeTotal(h: Head, size: nat)
    requires WholeHead(h, size)
    ensures ReadableLength(h)
    ensures TotalSize(h, 0) == if h.contentLength.Some? then Some(size) else None
  {
    PrintValue(size);
    hide Print;
  }

  /** What the client makes of a partial head: the total told, else the length added to what it has, else nothing. */
  lemma PartialTotal(h: Head, size: nat, start: nat, first: nat, end: nat)
    requires PartialHead(h, size, start, first, end)
    ensures ReadableLength(h)
    ensures TotalSize(h, start) ==
            if TellsTotal(h, size, first, end) then Some(size)
            else if h.contentLength.Some? then Some(start + (end - first)) else None
  {
    hide ContentRange, Print, Value, Strip, AfterLastSlash, HasSlash, IsNumber;
    PrintValue(end - first);
    RangeTells(first, end, size);
    RangeHides(first, end, size);
  }

  /** A partial head gives the true size exactly when it tells the total, or gives a length and encloses all that was
      asked for; it gives a wrong one exactly when it gives a length, hides the total and encloses less. */
  lemma TotalSizeRight(h: Head, size: nat, start: nat, first: nat, end: nat)
    requires PartialHead(h, size, start, first, end)
    ensures ReadableLength(h)
    ensures var told, all := TellsTotal(h, size, first, end), first == start && end == size;
            && (TotalSize(h, start) == Some(size) <==> told || (h.contentLength.Some? && all))
            && (TotalSize(h, start).None? <==> !told && h.contentLength.None?)
  {
    PartialTotal(h, size, start, first, end);
  }
}
