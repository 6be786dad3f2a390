/**
 Redaction of event text. The loop searches the whole text again after every
 replacement; it is proved to do what one pass over the text does, and to leave
 none of the prefixes behind.
 */
module Redaction {

  const MARK := "[redacted]"

  const PREFIXES := [
    "Bearer ", "bearer ", "Authorization:", "authorization:",
    "token=", "token:", "secret=", "secret:", "-----BEGIN "]

  predicate IsDelimiter(c: char) {
    c == ' ' || c == '\t' || c == '\r' || c == '\n' || c == ',' || c == ';' || c == '"' || c == '\''
  }

  predicate OccursAt(text: string, prefix: string, i: nat) {
    i + |prefix| <= |text| && text[i..i + |prefix|] == prefix
  }

  ghost predicate Clean(text: string, prefix: string) {
    forall i: nat :: !OccursAt(text, prefix, i)
  }

  /** `r` is the first occurrence at or after `from`, or -1 when there is none. */
  ghost predicate IsIndex(text: string, prefix: string, from: nat, r: int) {
    && (r == -1 || (from <= r && OccursAt(text, prefix, r)))
    && forall i: nat | from <= i && (r == -1 || i < r) :: !OccursAt(text, prefix, i)
  }

  function IndexFrom(text: string, prefix: string, from: nat): (r: int)
    ensures r == -1 || from <= r <= |text| - |prefix|
    decreases |text| - from
  {
    if from + |prefix| > |text| then -1
    else if text[from..from + |prefix|] == prefix then from
    else IndexFrom(text, prefix, from + 1)
  }

  lemma {:induction false} IndexFromMeans(text: string, prefix: string, from: nat)
    ensures IsIndex(text, prefix, from, IndexFrom(text, prefix, from))
    decreases |text| - from
  {
    if from + |prefix| <= |text| && text[from..from + |prefix|] != prefix {
      IndexFromMeans(text, prefix, from + 1);
    }
  }

  function Index(text: string, prefix: string): (r: int)
    ensures r == -1 || 0 <= r <= |text| - |prefix|
  {
    IndexFrom(text, prefix, 0)
  }

  /** The first delimiter at or after `from`, or the end of the text. */
  function EndFrom(text: string, from: nat): (r: nat)
    requires from <= |text|
    ensures from <= r <= |text|
    decreases |text| - from
  {
    if from == |text| || IsDelimiter(text[from]) then from else EndFrom(text, from + 1)
  }

  lemma {:induction false} EndFromMeans(text: string, from: nat)
    requires from <= |text|
    ensures var r := EndFrom(text, from);
            && (forall i | from <= i < r :: !IsDelimiter(text[i]))
            && (r < |text| ==> IsDelimiter(text[r]))
    decreases |text| - from
  {
    if from < |text| && !IsDelimiter(text[from]) {
      EndFromMeans(text, from + 1);
    }
  }

  /** One pass: every occurrence up to the next delimiter becomes the mark. */
  function RedactOne(text: string, prefix: string, mark: string): string
    requires prefix != ""
    decreases |text|
  {
    var i := Index(text, prefix);
    if i < 0 then text
    else text[..i] + mark + RedactOne(text[EndFrom(text, i + |prefix|)..], prefix, mark)
  }

  /** The prefixes of a list, one after the other. */
  function RedactAll(text: string, prefixes: seq<string>, mark: string): string
    requires forall k | 0 <= k < |prefixes| :: prefixes[k] != ""
  {
    if prefixes == [] then text
    else RedactOne(RedactAll(text, prefixes[..|prefixes| - 1], mark), prefixes[|prefixes| - 1], mark)
  }

  function Redact(text: string): string {
    RedactAll(text, PREFIXES, MARK)
  }

  // ---------- the mark separates ----------

  /** No occurrence of such a prefix can touch a mark. */
  predicate Separable(prefix: string, mark: string) {
    && prefix != "" && mark != ""
    && mark[|mark| - 1] !in prefix && prefix[|prefix| - 1] !in mark
  }

  predicate AllSeparable(prefixes: seq<string>, mark: string) {
    forall k | 0 <= k < |prefixes| :: Separable(prefixes[k], mark)
  }

  lemma PrefixesAreSeparable()
    ensures AllSeparable(PREFIXES, MARK)
  {}

  /** An occurrence around a mark lies wholly before or wholly after it. */
  lemma OccursApart(left: string, right: string, prefix: string, i: nat, mark: string)
    requires Separable(prefix, mark) && OccursAt(left + mark + right, prefix, i)
    ensures OccursAt(left, prefix, i)
         || (i >= |left| + |mark| && OccursAt(right, prefix, i - |left| - |mark|))
  {
    var text, n := left + mark + right, |prefix|;
    assert forall j | i <= j < i + n :: text[j] == prefix[j - i] && text[j] != mark[|mark| - 1];
    assert forall j | |left| <= j < |left| + |mark| :: text[j] == mark[j - |left|];
    assert text[|left| + |mark| - 1] == mark[|mark| - 1] && text[i + n - 1] == prefix[n - 1];
    if i + n <= |left| {
      assert left[i..i + n] == prefix;
    } else if i >= |left| + |mark| {
      assert right[i - |left| - |mark|..i - |left| - |mark| + n] == prefix;
    }
  }

  lemma CleanAround(left: string, right: string, prefix: string, mark: string)
    requires Separable(prefix, mark) && Clean(left, prefix) && Clean(right, prefix)
    ensures Clean(left + mark + right, prefix)
  {
    forall i: nat ensures !OccursAt(left + mark + right, prefix, i) {
      if OccursAt(left + mark + right, prefix, i) {
        OccursApart(left, right, prefix, i, mark);
      }
    }
  }

  lemma PartOfPart(text: string, lo: nat, hi: nat, i: nat, n: nat)
    requires lo <= hi <= |text| && i + n <= hi - lo
    ensures text[lo..hi][i..i + n] == text[lo + i..lo + i + n]
  {
    var part := text[lo..hi];
    var a, b := part[i..i + n], text[lo + i..lo + i + n];
    assert forall k | 0 <= k < n :: a[k] == b[k];
  }

  lemma CleanPart(text: string, lo: nat, hi: nat, prefix: string)
    requires lo <= hi <= |text| && Clean(text, prefix)
    ensures Clean(text[lo..hi], prefix)
  {
    forall i: nat ensures !OccursAt(text[lo..hi], prefix, i) {
      assert !OccursAt(text, prefix, lo + i);
      if i + |prefix| <= hi - lo {
        PartOfPart(text, lo, hi, i, |prefix|);
      }
    }
  }

  lemma BeforeFirstIsClean(text: string, prefix: string)
    requires prefix != "" && Index(text, prefix) >= 0
    ensures Clean(text[..Index(text, prefix)], prefix)
  {
    var n := Index(text, prefix);
    IndexFromMeans(text, prefix, 0);
    forall i: nat ensures !OccursAt(text[..n], prefix, i) {
      assert i < n ==> !OccursAt(text, prefix, i);
      assert i + |prefix| <= n ==> text[..n][i..i + |prefix|] == text[i..i + |prefix|];
    }
  }

  // ---------- one prefix ----------

  lemma {:induction false} RedactOneIsClean(text: string, prefix: string, mark: string)
    requires Separable(prefix, mark)
    ensures Clean(RedactOne(text, prefix, mark), prefix)
    decreases |text|
  {
    var i := Index(text, prefix);
    IndexFromMeans(text, prefix, 0);
    if i >= 0 {
      var rest := text[EndFrom(text, i + |prefix|)..];
      RedactOneIsClean(rest, prefix, mark);
      BeforeFirstIsClean(text, prefix);
      CleanAround(text[..i], RedactOne(rest, prefix, mark), prefix, mark);
    }
  }

  /** Redacting one prefix introduces no other. */
  lemma {:induction false} RedactOneKeepsClean(text: string, prefix: string, other: string, mark: string)
    requires Separable(prefix, mark) && Separable(other, mark) && Clean(text, other)
    ensures Clean(RedactOne(text, prefix, mark), other)
    decreases |text|
  {
    var i := Index(text, prefix);
    if i >= 0 {
      var end := EndFrom(text, i + |prefix|);
      CleanPart(text, 0, i, other);
      CleanPart(text, end, |text|, other);
      assert text[end..|text|] == text[end..];
      RedactOneKeepsClean(text[end..], prefix, other, mark);
      CleanAround(text[..i], RedactOne(text[end..], prefix, mark), other, mark);
    }
  }

  // ---------- all prefixes ----------

  lemma {:induction false} RedactAllIsClean(text: string, prefixes: seq<string>, k: nat, mark: string)
    requires AllSeparable(prefixes, mark) && k < |prefixes|
    ensures Clean(RedactAll(text, prefixes, mark), prefixes[k])
  {
    var init, last := prefixes[..|prefixes| - 1], prefixes[|prefixes| - 1];
    assert AllSeparable(init, mark) && Separable(last, mark);
    if k < |init| {
      RedactAllIsClean(text, init, k, mark);
      RedactOneKeepsClean(RedactAll(text, init, mark), last, prefixes[k], mark);
    } else {
      RedactOneIsClean(RedactAll(text, init, mark), last, mark);
    }
  }

  lemma {:induction false} CleanIsUnchanged(text: string, prefixes: seq<string>, mark: string)
    requires forall k | 0 <= k < |prefixes| :: prefixes[k] != "" && Clean(text, prefixes[k])
    ensures RedactAll(text, prefixes, mark) == text
  {
    if prefixes != [] {
      CleanIsUnchanged(text, prefixes[..|prefixes| - 1], mark);
      IndexFromMeans(text, prefixes[|prefixes| - 1], 0);
    }
  }

  /** None of the nine prefixes occurs. */
  ghost predicate AllClean(text: string) {
    forall k | 0 <= k < |PREFIXES| :: Clean(text, PREFIXES[k])
  }

  /** The result contains none of the nine prefixes. */
  lemma RedactedIsClean(text: string)
    ensures AllClean(Redact(text))
  {
    PrefixesAreSeparable();
    forall k | 0 <= k < |PREFIXES| ensures Clean(Redact(text), PREFIXES[k]) {
      RedactAllIsClean(text, PREFIXES, k, MARK);
    }
  }

  /** Text is kept exactly when it contains none of the prefixes; so redaction is idempotent. */
  lemma RedactKeepsExactlyClean(text: string)
    ensures Redact(text) == text <==> AllClean(text)
    ensures Redact(Redact(text)) == Redact(text)
  {
    RedactedIsClean(text);
    CleanIsUnchanged(Redact(text), PREFIXES, MARK);
    if AllClean(text) {
      CleanIsUnchanged(text, PREFIXES, MARK);
    }
  }

  // ---------- the loop ----------

  /** Searching again from the start finds what a search of the unread rest finds. */
  lemma FirstIsInRest(read: string, rest: string, prefix: string)
    requires prefix != "" && forall i: nat :: OccursAt(read + rest, prefix, i) ==> i >= |read|
    ensures var r := Index(rest, prefix);
            Index(read + rest, prefix) == if r < 0 then -1 else |read| + r
  {
    var n, w, r := |prefix|, Index(read + rest, prefix), Index(rest, prefix);
    IndexFromMeans(read + rest, prefix, 0);
    IndexFromMeans(rest, prefix, 0);
    forall j: nat ensures OccursAt(rest, prefix, j) <==> OccursAt(read + rest, prefix, |read| + j) {
      if j + n <= |rest| {
        assert (read + rest)[|read| + j..|read| + j + n] == rest[j..j + n];
      }
    }
    assert w >= 0 ==> OccursAt(rest, prefix, w - |read|);
    assert r >= 0 ==> OccursAt(read + rest, prefix, |read| + r);
  }

  lemma EndIsInRest(read: string, rest: string, from: nat)
    requires from <= |rest|
    ensures EndFrom(read + rest, |read| + from) == |read| + EndFrom(rest, from)
    decreases |rest| - from
  {
    if from < |rest| && !IsDelimiter(rest[from]) {
      EndIsInRest(read, rest, from + 1);
    }
  }

  /** After a replacement every further occurrence lies behind the mark. */
  lemma OnlyBehindMark(left: string, right: string, prefix: string, mark: string)
    requires Separable(prefix, mark) && Clean(left, prefix)
    ensures forall i: nat :: OccursAt(left + mark + right, prefix, i) ==> i >= |left + mark|
  {
    forall i: nat | OccursAt(left + mark + right, prefix, i) ensures i >= |left + mark| {
      OccursApart(left, right, prefix, i, mark);
    }
  }

  /** The text up to the end of the mark one replacement writes, and the text after it. */
  function ReadAfter(value: string, prefix: string, mark: string): string
    requires Index(value, prefix) >= 0
  {
    value[..Index(value, prefix)] + mark
  }

  function RestAfter(value: string, prefix: string): string
    requires Index(value, prefix) >= 0
  {
    value[EndFrom(value, Index(value, prefix) + |prefix|)..]
  }

  lemma RestPast(read: string, rest: string, prefix: string)
    requires prefix != "" && Index(read + rest, prefix) >= 0 && Index(rest, prefix) >= 0
    requires Index(read + rest, prefix) == |read| + Index(rest, prefix)
    ensures RestAfter(read + rest, prefix) == RestAfter(rest, prefix)
  {
    var i := Index(rest, prefix);
    EndIsInRest(read, rest, i + |prefix|);
  }

  lemma ReadPast(read: string, rest: string, prefix: string, mark: string)
    requires prefix != "" && Index(read + rest, prefix) >= 0 && Index(rest, prefix) >= 0
    requires Index(read + rest, prefix) == |read| + Index(rest, prefix)
    ensures ReadAfter(read + rest, prefix, mark) == read + ReadAfter(rest, prefix, mark)
  {}

  /** Every occurrence lies in the unread rest. */
  ghost predicate OnlyInRest(read: string, rest: string, prefix: string) {
    forall i: nat :: OccursAt(read + rest, prefix, i) ==> i >= |read|
  }

  lemma MarkIsRead(value: string, prefix: string, mark: string)
    requires Separable(prefix, mark) && Index(value, prefix) >= 0
    ensures OnlyInRest(ReadAfter(value, prefix, mark), RestAfter(value, prefix), prefix)
  {
    BeforeFirstIsClean(value, prefix);
    OnlyBehindMark(value[..Index(value, prefix)], RestAfter(value, prefix), prefix, mark);
  }

  /** One replacement in the loop is one step of the pass over the unread rest. */
  lemma ReplaceOne(read: string, rest: string, prefix: string, mark: string)
    requires prefix != "" && OnlyInRest(read, rest, prefix) && Index(read + rest, prefix) >= 0
    ensures read + RedactOne(rest, prefix, mark)
         == ReadAfter(read + rest, prefix, mark) + RedactOne(RestAfter(read + rest, prefix), prefix, mark)
    ensures |RestAfter(read + rest, prefix)| < |rest|
  {
    FirstIsInRest(read, rest, prefix);
    RestPast(read, rest, prefix);
    ReadPast(read, rest, prefix, mark);
    Associate(read, ReadAfter(rest, prefix, mark), RedactOne(RestAfter(rest, prefix), prefix, mark));
  }

  lemma Associate(a: string, b: string, c: string)
    ensures a + (b + c) == a + b + c
  {}

  lemma NothingLeft(read: string, rest: string, prefix: string, mark: string)
    requires prefix != "" && OnlyInRest(read, rest, prefix) && Index(read + rest, prefix) < 0
    ensures RedactOne(rest, prefix, mark) == rest
  {
    FirstIsInRest(read, rest, prefix);
  }

  method FindEnd(value: string, from: nat) returns (end: nat)
    requires from <= |value|
    ensures end == EndFrom(value, from)
  {
    end := from;
    while end < |value| && !IsDelimiter(value[end])
      invariant from <= end <= |value|
      invariant EndFrom(value, end) == EndFrom(value, from)
    {
      end := end + 1;
    }
  }

  /** Replaces the occurrence at `index` up to the next delimiter. */
  method ReplaceAt(value: string, prefix: string, mark: string, index: nat) returns (replaced: string)
    requires index == Index(value, prefix)
    ensures replaced == ReadAfter(value, prefix, mark) + RestAfter(value, prefix)
  {
    var end := FindEnd(value, index + |prefix|);
    replaced := value[..index] + mark + value[end..];
  }

  /** Replaces every occurrence of one prefix, searching from the start each time. */
  method ReplacePrefix(text: string, prefix: string, mark: string) returns (value: string)
    requires Separable(prefix, mark)
    ensures value == RedactOne(text, prefix, mark)
  {
    value := text;
    ghost var read, rest := "", text;
    NothingRead(text);
    NothingRead(RedactOne(text, prefix, mark));
    var index := Index(value, prefix);
    while index >= 0
      invariant value == read + rest && OnlyInRest(read, rest, prefix)
      invariant RedactOne(text, prefix, mark) == read + RedactOne(rest, prefix, mark)
      invariant index == Index(value, prefix)
      decreases |rest|
    {
      ReplaceOne(read, rest, prefix, mark);
      MarkIsRead(value, prefix, mark);
      read, rest := ReadAfter(value, prefix, mark), RestAfter(value, prefix);
      value := ReplaceAt(value, prefix, mark, index);
      index := Index(value, prefix);
    }
    NothingLeft(read, rest, prefix, mark);
  }

  lemma NothingRead(text: string)
    ensures "" + text == text
  {}

  method RedactPrefixes(text: string, prefixes: seq<string>, mark: string) returns (value: string)
    requires AllSeparable(prefixes, mark)
    ensures value == RedactAll(text, prefixes, mark)
  {
    value := text;
    var k := 0;
    while k < |prefixes|
      invariant k <= |prefixes|
      invariant value == RedactAll(text, prefixes[..k], mark)
    {
      assert prefixes[..k + 1][..k] == prefixes[..k];
      value := ReplacePrefix(value, prefixes[k], mark);
      k := k + 1;
    }
    assert prefixes[..|prefixes|] == prefixes;
  }

  method RedactEventText(text: string) returns (value: string)
    ensures value == Redact(text)
  {
    PrefixesAreSeparable();
    value := RedactPrefixes(text, PREFIXES, MARK);
  }
}
