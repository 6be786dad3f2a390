/**
 What redaction keeps of a text, said without the passes that compute it: an
 occurrence of a prefix is taken unless it begins inside the secret of one taken
 before, and every run of characters in the stretch of a taken occurrence, up to
 the next delimiter, becomes one mark.
 */
module SecretStretches {
  import opened Redaction

  /** The position is in the occurrence at `i` or in the secret that follows it, up to the next delimiter. */
  predicate InStretch(text: string, prefix: string, i: nat, j: nat) {
    i <= j < |text| && forall x | i + |prefix| <= x <= j :: !IsDelimiter(text[x])
  }

  predicate InSecret(text: string, prefix: string, i: nat, j: nat) {
    i + |prefix| <= j && InStretch(text, prefix, i, j)
  }

  /** The occurrence is not hidden in the secret of an earlier one that is taken, of the same or an earlier prefix. */
  ghost predicate Taken(text: string, prefixes: seq<string>, k: nat, i: nat)
    requires k < |prefixes|
    decreases i
  {
    && OccursAt(text, prefixes[k], i)
    && forall k': nat, i': nat | k' <= k && i' < i && InSecret(text, prefixes[k'], i', i) ::
         !Taken(text, prefixes, k', i')
  }

  ghost predicate TakenOver(text: string, prefixes: seq<string>, k: nat, i: nat, j: nat)
    requires k < |prefixes|
  {
    Taken(text, prefixes, k, i) && InStretch(text, prefixes[k], i, j)
  }

  /** The position is in the stretch of a taken occurrence of one of the first `n` prefixes. */
  ghost predicate Gone(text: string, prefixes: seq<string>, n: nat, j: nat)
    requires n <= |prefixes|
  {
    exists k: nat, i: nat :: k < n && TakenOver(text, prefixes, k, i, j)
  }

  /** The end of the run of gone positions that begins here. */
  ghost function RunEnd(text: string, prefixes: seq<string>, n: nat, from: nat): (r: nat)
    requires n <= |prefixes| && from <= |text|
    ensures from <= r <= |text|
    ensures forall j | from <= j < r :: Gone(text, prefixes, n, j)
    ensures r < |text| ==> !Gone(text, prefixes, n, r)
    decreases |text| - from
  {
    if from == |text| || !Gone(text, prefixes, n, from) then from else RunEnd(text, prefixes, n, from + 1)
  }

  /** The text from a position on, with a mark for every run of gone positions. */
  ghost function Rendered(text: string, prefixes: seq<string>, n: nat, mark: string, from: nat): string
    requires n <= |prefixes| && from <= |text|
    decreases |text| - from
  {
    if from == |text| then ""
    else if Gone(text, prefixes, n, from) then
      mark + Rendered(text, prefixes, n, mark, RunEnd(text, prefixes, n, from + 1))
    else [text[from]] + Rendered(text, prefixes, n, mark, from + 1)
  }

  // ---------- the prefixes ----------

  /** The texts differ when the second begins at `offset` of the first. */
  ghost predicate Differ(p: string, q: string, offset: nat) {
    exists x: nat :: x < |q| && offset + x < |p| && p[offset + x] != q[x]
  }

  /** No two occurrences overlap, none begins with a delimiter, and the mark holds none. */
  ghost predicate Apart(prefixes: seq<string>, mark: string) {
    && AllSeparable(prefixes, mark)
    && (forall c | c in mark :: !IsDelimiter(c))
    && (forall k | 0 <= k < |prefixes| :: !IsDelimiter(prefixes[k][0]))
    && forall k: nat, k': nat, o: nat
         | k < |prefixes| && k' < |prefixes| && o < |prefixes[k]| && !(k == k' && o == 0) ::
         Differ(prefixes[k], prefixes[k'], o)
  }

  lemma OccurrencesDoNotOverlap(text: string, prefixes: seq<string>, mark: string, k: nat, i: nat, k': nat, i': nat)
    requires Apart(prefixes, mark) && k < |prefixes| && k' < |prefixes|
    requires OccursAt(text, prefixes[k], i) && OccursAt(text, prefixes[k'], i') && i <= i' < i + |prefixes[k]|
    ensures k == k' && i == i'
  {
    var p, q, o: nat := prefixes[k], prefixes[k'], i' - i;
    assert (k == k' && o == 0) || Differ(p, q, o);
    assert forall y | 0 <= y < |p| :: text[i + y] == p[y];
    assert forall x | 0 <= x < |q| :: text[i' + x] == q[x];
  }

  lemma TakenStarts(text: string, prefixes: seq<string>, mark: string, k: nat, i: nat)
    requires Apart(prefixes, mark) && k < |prefixes| && OccursAt(text, prefixes[k], i)
    ensures i < |text| && !IsDelimiter(text[i]) && InStretch(text, prefixes[k], i, i)
  {
    assert text[i] == text[i..i + |prefixes[k]|][0];
  }

  // ---------- runs of gone positions ----------

  lemma GoneNext(text: string, prefixes: seq<string>, k: nat, j: nat)
    requires k < |prefixes|
    ensures Gone(text, prefixes, k + 1, j) <==>
            Gone(text, prefixes, k, j) || exists i: nat :: TakenOver(text, prefixes, k, i, j)
  {}

  /** A run ends at a delimiter or at the end of the text. */
  lemma RunEndsAtDelimiter(text: string, prefixes: seq<string>, n: nat, j: nat)
    requires n <= |prefixes| && j + 1 < |text|
    requires Gone(text, prefixes, n, j) && !Gone(text, prefixes, n, j + 1)
    ensures IsDelimiter(text[j + 1])
  {
    var k: nat, i: nat :| k < n && TakenOver(text, prefixes, k, i, j);
    assert !TakenOver(text, prefixes, k, i, j + 1);
  }

  /** A run begins with a taken occurrence. */
  lemma RunStartsTaken(text: string, prefixes: seq<string>, n: nat, j: nat) returns (k: nat)
    requires n <= |prefixes| && Gone(text, prefixes, n, j) && (j == 0 || !Gone(text, prefixes, n, j - 1))
    ensures k < n && Taken(text, prefixes, k, j)
  {
    var i: nat;
    k, i :| k < n && TakenOver(text, prefixes, k, i, j);
    if i < j {
      assert TakenOver(text, prefixes, k, i, j - 1);
    }
  }

  /** Where an earlier prefix was taken, this one is not. */
  lemma GoneIsNotTaken(text: string, prefixes: seq<string>, mark: string, k: nat, i: nat)
    requires Apart(prefixes, mark) && k < |prefixes| && Gone(text, prefixes, k, i)
    ensures !Taken(text, prefixes, k, i)
  {
    var k': nat, i': nat :| k' < k && TakenOver(text, prefixes, k', i', i);
    if Taken(text, prefixes, k, i) {
      if i < i' + |prefixes[k']| {
        OccurrencesDoNotOverlap(text, prefixes, mark, k', i', k, i);
      } else {
        assert InSecret(text, prefixes[k'], i', i);
      }
    }
  }

  lemma FirstOfPart(text: string, from: nat, to: nat)
    requires from < to <= |text|
    ensures text[from..to] == [text[from]] + text[from + 1..to]
  {}

  lemma {:induction false} KeptIsRendered(text: string, prefixes: seq<string>, n: nat, mark: string, from: nat, m: nat)
    requires n <= |prefixes| && from + m <= |text|
    requires forall j | from <= j < from + m :: !Gone(text, prefixes, n, j)
    ensures Rendered(text, prefixes, n, mark, from) ==
            text[from..from + m] + Rendered(text, prefixes, n, mark, from + m)
    decreases m
  {
    if m > 0 {
      KeptIsRendered(text, prefixes, n, mark, from + 1, m - 1);
      FirstOfPart(text, from, from + m);
      Associate([text[from]], text[from + 1..from + m], Rendered(text, prefixes, n, mark, from + m));
    } else {
      NothingRead(Rendered(text, prefixes, n, mark, from));
    }
  }

  lemma RunIsRendered(text: string, prefixes: seq<string>, n: nat, mark: string, from: nat, end: nat)
    requires n <= |prefixes| && from < end <= |text|
    requires forall j | from <= j < end :: Gone(text, prefixes, n, j)
    requires end < |text| ==> !Gone(text, prefixes, n, end)
    ensures Rendered(text, prefixes, n, mark, from) == mark + Rendered(text, prefixes, n, mark, end)
  {
    var r := RunEnd(text, prefixes, n, from + 1);
    assert Gone(text, prefixes, n, from);
    assert r == end;
  }

  // ---------- one pass ----------

  /** The pass over prefix `k` is not inside a stretch of its own or a run of earlier ones. */
  ghost predicate Between(text: string, prefixes: seq<string>, k: nat, from: nat)
    requires k < |prefixes|
  {
    && (forall i: nat | i < from :: !TakenOver(text, prefixes, k, i, from))
    && (0 < from < |text| && Gone(text, prefixes, k, from) ==> !Gone(text, prefixes, k, from - 1))
  }

  /** What is read already can be left out of the search. */
  lemma ReadIsKept(read: string, rest: string, prefix: string, mark: string)
    requires prefix != "" && OnlyInRest(read, rest, prefix)
    ensures RedactOne(read + rest, prefix, mark) == read + RedactOne(rest, prefix, mark)
  {
    if Index(read + rest, prefix) < 0 {
      NothingLeft(read, rest, prefix, mark);
    } else {
      ReplaceOne(read, rest, prefix, mark);
    }
  }

  lemma MarkIsKept(rest: string, prefix: string, mark: string)
    requires Separable(prefix, mark)
    ensures RedactOne(mark + rest, prefix, mark) == mark + RedactOne(rest, prefix, mark)
  {
    OnlyBehindMark("", rest, prefix, mark);
    assert "" + mark + rest == mark + rest && "" + mark == mark;
    ReadIsKept(mark, rest, prefix, mark);
  }

  lemma FirstIsKept(text: string, prefix: string, mark: string)
    requires prefix != "" && text != "" && !OccursAt(text, prefix, 0)
    ensures RedactOne(text, prefix, mark) == [text[0]] + RedactOne(text[1..], prefix, mark)
  {
    assert [text[0]] + text[1..] == text;
    assert OnlyInRest([text[0]], text[1..], prefix);
    ReadIsKept([text[0]], text[1..], prefix, mark);
  }

  /** A text that begins with the prefix loses it and its secret. */
  lemma FirstIsCut(text: string, prefix: string, rest: string, mark: string)
    requires prefix != "" && text == prefix + rest
    ensures RedactOne(text, prefix, mark) == mark + RedactOne(rest[EndFrom(rest, 0)..], prefix, mark)
  {
    var end := EndFrom(rest, 0);
    assert text[0..0 + |prefix|] == prefix;
    EndIsInRest(prefix, rest, 0);
    AfterRead(prefix, rest, end);
    NothingRead(mark);
  }

  lemma AfterRead(read: string, rest: string, from: nat)
    requires from <= |rest|
    ensures (read + rest)[|read| + from..] == rest[from..]
  {}

  /** Nothing taken by this pass reaches over the delimiter at which it goes on. */
  lemma BetweenAt(text: string, prefixes: seq<string>, mark: string, k: nat, from: nat, e: nat)
    requires Apart(prefixes, mark) && k < |prefixes| && from < e <= |text| && Between(text, prefixes, k, from)
    requires e < |text| ==> IsDelimiter(text[e]) && !Gone(text, prefixes, k, e)
    requires Taken(text, prefixes, k, from) ==> from + |prefixes[k]| <= e
    requires forall i | from < i < e :: !Taken(text, prefixes, k, i)
    requires Gone(text, prefixes, k, from) ==> !Taken(text, prefixes, k, from)
    ensures Between(text, prefixes, k, e) && (e < |text| ==> !Gone(text, prefixes, k + 1, e))
  {
    forall i: nat | i <= e < |text| ensures !TakenOver(text, prefixes, k, i, e) {
      if TakenOver(text, prefixes, k, i, e) {
        TakenStarts(text, prefixes, mark, k, i);
        assert e < i + |prefixes[k]|;
        if i < from {
          assert TakenOver(text, prefixes, k, i, from);
        }
      }
    }
    if e < |text| {
      GoneNext(text, prefixes, k, e);
    }
  }

  /** The run of earlier prefixes that begins here stays what it is. */
  lemma RunGoesOn(text: string, prefixes: seq<string>, mark: string, k: nat, from: nat, e: nat)
    requires Apart(prefixes, mark) && k < |prefixes| && from < e <= |text| && Between(text, prefixes, k, from)
    requires forall i | from <= i < e :: Gone(text, prefixes, k, i)
    requires e < |text| ==> !Gone(text, prefixes, k, e)
    ensures Between(text, prefixes, k, e) && (e < |text| ==> !Gone(text, prefixes, k + 1, e))
  {
    forall i | from <= i < e ensures !Taken(text, prefixes, k, i) {
      GoneIsNotTaken(text, prefixes, mark, k, i);
    }
    assert Gone(text, prefixes, k, e - 1);
    if e < |text| { RunEndsAtDelimiter(text, prefixes, k, e - 1); }
    BetweenAt(text, prefixes, mark, k, from, e);
  }

  lemma GoneStays(text: string, prefixes: seq<string>, k: nat, n: nat, from: nat, e: nat)
    requires k <= n <= |prefixes| && forall i | from <= i < e :: Gone(text, prefixes, k, i)
    ensures forall i | from <= i < e :: Gone(text, prefixes, n, i)
  {
    forall i | from <= i < e ensures Gone(text, prefixes, n, i) {
      assert Gone(text, prefixes, k, i);
      var k': nat, i': nat :| k' < k && TakenOver(text, prefixes, k', i', i);
    }
  }

  lemma RunIsPassed(text: string, prefixes: seq<string>, mark: string, k: nat, from: nat) returns (e: nat)
    requires Apart(prefixes, mark) && k < |prefixes| && from < |text| && Between(text, prefixes, k, from)
    requires Gone(text, prefixes, k, from)
    ensures from < e <= |text| && Between(text, prefixes, k, e)
    ensures Rendered(text, prefixes, k, mark, from) == mark + Rendered(text, prefixes, k, mark, e)
    ensures Rendered(text, prefixes, k + 1, mark, from) == mark + Rendered(text, prefixes, k + 1, mark, e)
  {
    e := RunEnd(text, prefixes, k, from + 1);
    RunGoesOn(text, prefixes, mark, k, from, e);
    GoneStays(text, prefixes, k, k + 1, from, e);
    RunIsRendered(text, prefixes, k, mark, from, e);
    RunIsRendered(text, prefixes, k + 1, mark, from, e);
  }

  /** The first delimiter at or after a position that is not gone. */
  ghost function KeptEnd(text: string, prefixes: seq<string>, n: nat, from: nat): (r: nat)
    requires n <= |prefixes| && from <= |text|
    ensures from <= r <= |text|
    ensures forall j | from <= j < r :: Gone(text, prefixes, n, j) || !IsDelimiter(text[j])
    ensures r < |text| ==> !Gone(text, prefixes, n, r) && IsDelimiter(text[r])
    decreases |text| - from
  {
    if from == |text| || (IsDelimiter(text[from]) && !Gone(text, prefixes, n, from)) then from
    else KeptEnd(text, prefixes, n, from + 1)
  }

  lemma KeptEndIs(text: string, prefixes: seq<string>, n: nat, from: nat, to: nat)
    requires n <= |prefixes| && from <= to <= |text|
    requires forall j | from <= j < to :: Gone(text, prefixes, n, j) || !IsDelimiter(text[j])
    ensures KeptEnd(text, prefixes, n, from) == KeptEnd(text, prefixes, n, to)
    decreases |text| - from
  {
    if from < to { KeptEndIs(text, prefixes, n, from + 1, to); }
  }

  lemma {:induction false} MarkHasNoEnd(mark: string, rest: string, from: nat)
    requires from <= |mark| && forall c | c in mark :: !IsDelimiter(c)
    ensures EndFrom(mark + rest, from) == |mark| + EndFrom(rest, 0)
    decreases |mark| - from
  {
    if from < |mark| {
      assert (mark + rest)[from] == mark[from] && mark[from] in mark;
      MarkHasNoEnd(mark, rest, from + 1);
    } else {
      EndIsInRest(mark, rest, 0);
    }
  }

  /** The end of a secret in the text the earlier passes left. */
  lemma {:induction false} SecretIsSkipped(text: string, prefixes: seq<string>, n: nat, mark: string, from: nat)
    requires n <= |prefixes| && from <= |text| && forall c | c in mark :: !IsDelimiter(c)
    ensures var v := Rendered(text, prefixes, n, mark, from);
            v[EndFrom(v, 0)..] == Rendered(text, prefixes, n, mark, KeptEnd(text, prefixes, n, from))
    decreases |text| - from
  {
    var v := Rendered(text, prefixes, n, mark, from);
    if from == |text| {
    } else if Gone(text, prefixes, n, from) {
      var r := RunEnd(text, prefixes, n, from + 1);
      var rest := Rendered(text, prefixes, n, mark, r);
      SecretIsSkipped(text, prefixes, n, mark, r);
      MarkHasNoEnd(mark, rest, 0);
      AfterRead(mark, rest, EndFrom(rest, 0));
      KeptEndIs(text, prefixes, n, from, r);
    } else if !IsDelimiter(text[from]) {
      var rest := Rendered(text, prefixes, n, mark, from + 1);
      SecretIsSkipped(text, prefixes, n, mark, from + 1);
      EndIsInRest([text[from]], rest, 0);
      AfterRead([text[from]], rest, EndFrom(rest, 0));
    }
  }

  /** A taken occurrence is untouched by the earlier passes. */
  lemma TakenIsWhole(text: string, prefixes: seq<string>, mark: string, k: nat, from: nat, j: nat)
    requires Apart(prefixes, mark) && k < |prefixes| && Taken(text, prefixes, k, from)
    requires from <= j < from + |prefixes[k]|
    ensures !Gone(text, prefixes, k, j)
    decreases j
  {
    if j == from {
      if Gone(text, prefixes, k, j) { GoneIsNotTaken(text, prefixes, mark, k, from); }
    } else {
      TakenIsWhole(text, prefixes, mark, k, from, j - 1);
      if Gone(text, prefixes, k, j) {
        var k' := RunStartsTaken(text, prefixes, k, j);
        OccurrencesDoNotOverlap(text, prefixes, mark, k, from, k', j);
      }
    }
  }

  /** Up to where the pass goes on, everything is in the stretch of the taken occurrence or was gone. */
  lemma {:induction false} TakenCovers(text: string, prefixes: seq<string>, k: nat, from: nat, x: nat)
    requires k < |prefixes| && Taken(text, prefixes, k, from)
    requires from <= x < KeptEnd(text, prefixes, k, from + |prefixes[k]|)
    ensures InStretch(text, prefixes[k], from, x) || Gone(text, prefixes, k, x)
    decreases x
  {
    if x > from && from + |prefixes[k]| <= x && !Gone(text, prefixes, k, x) {
      TakenCovers(text, prefixes, k, from, x - 1);
      if Gone(text, prefixes, k, x - 1) {
        RunEndsAtDelimiter(text, prefixes, k, x - 1);
      }
    }
  }

  lemma NoneInTaken(text: string, prefixes: seq<string>, mark: string, k: nat, from: nat, i: nat)
    requires Apart(prefixes, mark) && k < |prefixes| && Taken(text, prefixes, k, from)
    requires from < i < KeptEnd(text, prefixes, k, from + |prefixes[k]|)
    ensures !Taken(text, prefixes, k, i)
  {
    TakenCovers(text, prefixes, k, from, i);
    if Gone(text, prefixes, k, i) {
      GoneIsNotTaken(text, prefixes, mark, k, i);
    } else {
      assert from + |prefixes[k]| <= i ==> InSecret(text, prefixes[k], from, i);
      if i < from + |prefixes[k]| && OccursAt(text, prefixes[k], i) {
        OccurrencesDoNotOverlap(text, prefixes, mark, k, from, k, i);
      }
    }
  }

  /** The pass cuts a taken occurrence up to there. */
  lemma TakenIsCut(text: string, prefixes: seq<string>, mark: string, k: nat, from: nat)
    requires Apart(prefixes, mark) && k < |prefixes| && Taken(text, prefixes, k, from)
    ensures var e := KeptEnd(text, prefixes, k, from + |prefixes[k]|);
            RedactOne(Rendered(text, prefixes, k, mark, from), prefixes[k], mark) ==
            mark + RedactOne(Rendered(text, prefixes, k, mark, e), prefixes[k], mark)
  {
    var p := prefixes[k];
    var f := from + |p|;
    forall j | from <= j < f ensures !Gone(text, prefixes, k, j) {
      TakenIsWhole(text, prefixes, mark, k, from, j);
    }
    KeptIsRendered(text, prefixes, k, mark, from, |p|);
    var v, rest := Rendered(text, prefixes, k, mark, from), Rendered(text, prefixes, k, mark, f);
    assert v == p + rest;
    FirstIsCut(v, p, rest, mark);
    SecretIsSkipped(text, prefixes, k, mark, f);
  }

  lemma TakenIsPassed(text: string, prefixes: seq<string>, mark: string, k: nat, from: nat) returns (e: nat)
    requires Apart(prefixes, mark) && k < |prefixes| && from < |text| && Between(text, prefixes, k, from)
    requires Taken(text, prefixes, k, from)
    ensures from < e <= |text| && Between(text, prefixes, k, e)
    ensures e == KeptEnd(text, prefixes, k, from + |prefixes[k]|)
    ensures Rendered(text, prefixes, k + 1, mark, from) == mark + Rendered(text, prefixes, k + 1, mark, e)
  {
    var n := k + 1;
    e := KeptEnd(text, prefixes, k, from + |prefixes[k]|);
    TakenIsWhole(text, prefixes, mark, k, from, from);
    forall i | from < i < e ensures !Taken(text, prefixes, k, i) {
      NoneInTaken(text, prefixes, mark, k, from, i);
    }
    BetweenAt(text, prefixes, mark, k, from, e);
    forall j | from <= j < e ensures Gone(text, prefixes, n, j) {
      TakenCovers(text, prefixes, k, from, j);
      GoneNext(text, prefixes, k, j);
      assert InStretch(text, prefixes[k], from, j) ==> TakenOver(text, prefixes, k, from, j);
    }
    RunIsRendered(text, prefixes, n, mark, from, e);
  }

  /** An occurrence in the text the earlier passes left is one in the text itself. */
  lemma {:induction false} RenderedOccurs(text: string, prefixes: seq<string>, n: nat, prefix: string, mark: string,
                                          from: nat, m: nat)
    requires n <= |prefixes| && from + m <= |text| && m <= |prefix| && Separable(prefix, mark)
    requires OccursAt(Rendered(text, prefixes, n, mark, from), prefix, 0)
    requires forall j | from <= j < from + m :: !Gone(text, prefixes, n, j)
    ensures OccursAt(text, prefix, from)
    decreases |prefix| - m
  {
    var v, left := Rendered(text, prefixes, n, mark, from), text[from..from + m];
    var rest := Rendered(text, prefixes, n, mark, from + m);
    KeptIsRendered(text, prefixes, n, mark, from, m);
    if m == |prefix| {
      assert v[0..m] == left;
    } else if from + m == |text| {
    } else if Gone(text, prefixes, n, from + m) {
      var right := Rendered(text, prefixes, n, mark, RunEnd(text, prefixes, n, from + m + 1));
      assert v == left + mark + right;
      OccursApart(left, right, prefix, 0, mark);
    } else {
      RenderedOccurs(text, prefixes, n, prefix, mark, from, m + 1);
    }
  }

  lemma KeptIsPassed(text: string, prefixes: seq<string>, mark: string, k: nat, from: nat)
    requires Apart(prefixes, mark) && k < |prefixes| && from < |text| && Between(text, prefixes, k, from)
    requires !Gone(text, prefixes, k, from) && !Taken(text, prefixes, k, from)
    ensures Between(text, prefixes, k, from + 1)
    ensures RedactOne(Rendered(text, prefixes, k, mark, from), prefixes[k], mark) ==
            [text[from]] + RedactOne(Rendered(text, prefixes, k, mark, from + 1), prefixes[k], mark)
    ensures Rendered(text, prefixes, k + 1, mark, from) ==
            [text[from]] + Rendered(text, prefixes, k + 1, mark, from + 1)
  {
    var v := Rendered(text, prefixes, k, mark, from);
    if OccursAt(v, prefixes[k], 0) {
      RenderedOccurs(text, prefixes, k, prefixes[k], mark, from, 0);
      var k': nat, i': nat :|
        k' <= k && i' < from && InSecret(text, prefixes[k'], i', from) && Taken(text, prefixes, k', i');
      assert TakenOver(text, prefixes, k', i', from);
      assert false;
    }
    FirstIsKept(v, prefixes[k], mark);
    assert v[1..] == Rendered(text, prefixes, k, mark, from + 1);
    GoneNext(text, prefixes, k, from);
    forall i: nat ensures !TakenOver(text, prefixes, k, i, from) {
      if i < from {}
    }
    var next := from + 1;
    forall i: nat | i < next ensures !TakenOver(text, prefixes, k, i, next) {
      assert i < from ==> !TakenOver(text, prefixes, k, i, from);
      assert InStretch(text, prefixes[k], i, next) ==> InStretch(text, prefixes[k], i, from);
    }
  }

  /** One pass of redaction takes exactly the occurrences of its prefix that are left. */
  lemma {:induction false} PassRenders(text: string, prefixes: seq<string>, mark: string, k: nat, from: nat)
    requires Apart(prefixes, mark) && k < |prefixes| && from <= |text| && Between(text, prefixes, k, from)
    ensures RedactOne(Rendered(text, prefixes, k, mark, from), prefixes[k], mark) ==
            Rendered(text, prefixes, k + 1, mark, from)
    decreases |text| - from
  {
    if from == |text| {
    } else if Gone(text, prefixes, k, from) {
      var e := RunIsPassed(text, prefixes, mark, k, from);
      MarkIsKept(Rendered(text, prefixes, k, mark, e), prefixes[k], mark);
      PassRenders(text, prefixes, mark, k, e);
    } else if Taken(text, prefixes, k, from) {
      var e := TakenIsPassed(text, prefixes, mark, k, from);
      TakenIsCut(text, prefixes, mark, k, from);
      PassRenders(text, prefixes, mark, k, e);
    } else {
      KeptIsPassed(text, prefixes, mark, k, from);
      PassRenders(text, prefixes, mark, k, from + 1);
    }
  }

  lemma {:induction false} PassesRender(text: string, prefixes: seq<string>, mark: string, n: nat)
    requires Apart(prefixes, mark) && n <= |prefixes|
    ensures RedactAll(text, prefixes[..n], mark) == Rendered(text, prefixes, n, mark, 0)
  {
    if n == 0 {
      KeptIsRendered(text, prefixes, 0, mark, 0, |text|);
      assert text[0..|text|] == text;
    } else {
      PassesRender(text, prefixes, mark, n - 1);
      assert prefixes[..n][..n - 1] == prefixes[..n - 1];
      PassRenders(text, prefixes, mark, n - 1, 0);
    }
  }

  // ---------- the nine prefixes ----------

  /** Where the texts can differ. */
  predicate Clash(p: string, q: string, o: nat) {
    || (o < |p| && 0 < |q| && p[o] != q[0])
    || (o + 1 < |p| && 1 < |q| && p[o + 1] != q[1])
    || (o + 4 < |p| && 4 < |q| && p[o + 4] != q[4])
    || (o + 5 < |p| && 5 < |q| && p[o + 5] != q[5])
    || (o + 6 < |p| && 6 < |q| && p[o + 6] != q[6])
  }

  lemma PrefixesClash(k: nat, k': nat, o: nat)
    requires k < |PREFIXES| && k' < |PREFIXES| && o < |PREFIXES[k]| && !(k == k' && o == 0)
    ensures Clash(PREFIXES[k], PREFIXES[k'], o)
  {}

  lemma PrefixesAreApart()
    ensures Apart(PREFIXES, MARK)
  {
    PrefixesAreSeparable();
    forall k: nat, k': nat, o: nat
      | k < |PREFIXES| && k' < |PREFIXES| && o < |PREFIXES[k]| && !(k == k' && o == 0)
      ensures Differ(PREFIXES[k], PREFIXES[k'], o)
    {
      PrefixesClash(k, k', o);
      ClashDiffers(PREFIXES[k], PREFIXES[k'], o);
    }
  }

  lemma ClashDiffers(p: string, q: string, o: nat)
    requires Clash(p, q, o)
    ensures Differ(p, q, o)
  {
    if o < |p| && 0 < |q| && p[o] != q[0] { assert p[o + 0] != q[0]; }
  }

  /** The result of redaction: the text with a mark for every run that a taken occurrence covers. */
  lemma RedactIsRendered(text: string)
    ensures Redact(text) == Rendered(text, PREFIXES, |PREFIXES|, MARK, 0)
  {
    PrefixesAreApart();
    PassesRender(text, PREFIXES, MARK, |PREFIXES|);
    assert PREFIXES[..|PREFIXES|] == PREFIXES;
  }

  /** No prefix occurs but this one, here. */
  ghost predicate OnlyOccurs(text: string, prefixes: seq<string>, k: nat, i: nat)
    requires k < |prefixes|
  {
    && OccursAt(text, prefixes[k], i)
    && forall k': nat, i': nat :: k' < |prefixes| && OccursAt(text, prefixes[k'], i') ==> k' == k && i' == i
  }

  lemma OnlyIsGone(text: string, prefixes: seq<string>, k: nat, i: nat, j: nat)
    requires k < |prefixes| && OnlyOccurs(text, prefixes, k, i)
    ensures Gone(text, prefixes, |prefixes|, j) <==> InStretch(text, prefixes[k], i, j)
  {
    assert Taken(text, prefixes, k, i);
    if InStretch(text, prefixes[k], i, j) {
      assert TakenOver(text, prefixes, k, i, j);
    }
  }

  lemma OnlyIsRendered(text: string, prefixes: seq<string>, mark: string, k: nat, i: nat, end: nat)
    requires k < |prefixes| && OnlyOccurs(text, prefixes, k, i) && i < end <= |text|
    requires forall j: nat :: InStretch(text, prefixes[k], i, j) <==> i <= j < end
    ensures Rendered(text, prefixes, |prefixes|, mark, 0) == text[..i] + mark + text[end..]
  {
    var n := |prefixes|;
    forall j: nat ensures Gone(text, prefixes, n, j) <==> i <= j < end {
      OnlyIsGone(text, prefixes, k, i, j);
    }
    KeptIsRendered(text, prefixes, n, mark, 0, i);
    RunIsRendered(text, prefixes, n, mark, i, end);
    KeptIsRendered(text, prefixes, n, mark, end, |text| - end);
    assert text[end..|text|] + "" == text[end..];
    Associate(text[..i], mark, text[end..]);
  }

  /** The only occurrence of a prefix goes, with the secret after it, and nothing else does. */
  lemma OnlySecretIsCut(left: string, k: nat, secret: string, right: string)
    requires k < |PREFIXES| && OnlyOccurs(left + PREFIXES[k] + secret + right, PREFIXES, k, |left|)
    requires forall c | c in secret :: !IsDelimiter(c)
    requires right == "" || IsDelimiter(right[0])
    ensures Redact(left + PREFIXES[k] + secret + right) == left + MARK + right
  {
    var p := PREFIXES[k];
    var text, end := left + p + secret + right, |left + p + secret|;
    StretchOf(left, p, secret, right);
    PrefixesAreApart();
    OnlyIsRendered(text, PREFIXES, MARK, k, |left|, end);
    assert text[..|left|] == left && text[end..] == right;
    RedactIsRendered(text);
  }

  lemma StretchOf(left: string, p: string, secret: string, right: string)
    requires p != "" && forall c | c in secret :: !IsDelimiter(c)
    requires right == "" || IsDelimiter(right[0])
    ensures var text := left + p + secret + right;
            forall j: nat :: InStretch(text, p, |left|, j) <==> |left| <= j < |left + p + secret|
  {
    var text, end := left + p + secret + right, |left + p + secret|;
    assert forall j | |left + p| <= j < end :: text[j] == secret[j - |left + p|];
    assert end < |text| ==> text[end] == right[0];
  }

  /** A delimiter in the prefix of an occurrence that is not taken stays. */
  lemma DelimiterStays(text: string, prefixes: seq<string>, mark: string, k: nat, i: nat, x: nat)
    requires Apart(prefixes, mark) && k < |prefixes|
    requires OccursAt(text, prefixes[k], i) && !Taken(text, prefixes, k, i)
    requires x < |prefixes[k]| && IsDelimiter(prefixes[k][x])
    ensures !Gone(text, prefixes, |prefixes|, i + x)
  {
    var j := i + x;
    assert text[j] == text[i..i + |prefixes[k]|][x];
    forall k': nat, i': nat | k' < |prefixes| ensures !TakenOver(text, prefixes, k', i', j) {
      if TakenOver(text, prefixes, k', i', j) {
        if i <= i' {
          OccurrencesDoNotOverlap(text, prefixes, mark, k, i, k', i');
        } else {
          OccurrencesDoNotOverlap(text, prefixes, mark, k', i', k, i);
        }
      }
    }
  }

  /** A prefix without a delimiter goes with its secret even in the secret of another. */
  lemma HiddenGoes(text: string, prefixes: seq<string>, k: nat, i: nat, j: nat)
    requires k < |prefixes| && OccursAt(text, prefixes[k], i) && InStretch(text, prefixes[k], i, j)
    requires !Taken(text, prefixes, k, i) && forall c | c in prefixes[k] :: !IsDelimiter(c)
    ensures Gone(text, prefixes, |prefixes|, j)
  {
    var k': nat, i': nat :|
      k' <= k && i' < i && InSecret(text, prefixes[k'], i', i) && Taken(text, prefixes, k', i');
    var p := prefixes[k];
    assert forall x | 0 <= x < |p| :: text[i + x] == p[x];
    forall y | i' + |prefixes[k']| <= y <= j ensures !IsDelimiter(text[y]) {
      if i <= y < i + |p| { assert text[i + (y - i)] == p[y - i]; }
    }
    assert TakenOver(text, prefixes, k', i', j);
  }

  /** Everything of the occurrence and its secret is gone. */
  ghost predicate AllGone(text: string, prefixes: seq<string>, k: nat, i: nat)
    requires k < |prefixes|
  {
    forall j: nat | InStretch(text, prefixes[k], i, j) :: Gone(text, prefixes, |prefixes|, j)
  }

  lemma StretchGoes(text: string, prefixes: seq<string>, mark: string, k: nat, i: nat)
    requires Apart(prefixes, mark) && k < |prefixes| && OccursAt(text, prefixes[k], i)
    ensures AllGone(text, prefixes, k, i) <==>
            Taken(text, prefixes, k, i) || forall c | c in prefixes[k] :: !IsDelimiter(c)
  {
    var p := prefixes[k];
    if Taken(text, prefixes, k, i) {
      forall j: nat | InStretch(text, p, i, j) ensures Gone(text, prefixes, |prefixes|, j) {
        assert TakenOver(text, prefixes, k, i, j);
      }
    } else if c :| c in p && IsDelimiter(c) {
      var x: nat :| x < |p| && p[x] == c;
      DelimiterStays(text, prefixes, mark, k, i, x);
      assert InStretch(text, p, i, i + x);
    } else {
      forall j: nat | InStretch(text, p, i, j) ensures Gone(text, prefixes, |prefixes|, j) {
        HiddenGoes(text, prefixes, k, i, j);
      }
    }
  }

  /**
   All of an occurrence and its secret goes exactly when the occurrence is taken
   or its prefix holds no delimiter. Otherwise an earlier secret ends inside it.
   */
  lemma StretchGoesExactlyWhen(text: string, k: nat, i: nat)
    requires k < |PREFIXES| && OccursAt(text, PREFIXES[k], i)
    ensures AllGone(text, PREFIXES, k, i) <==>
            Taken(text, PREFIXES, k, i) || forall c | c in PREFIXES[k] :: !IsDelimiter(c)
  {
    PrefixesAreApart();
    StretchGoes(text, PREFIXES, MARK, k, i);
  }

  /** A text in which the secret of the second prefix stays. */
  const HIDDEN := "Bearer bearer x"

  lemma OccurrencesInHidden(k: nat, i: nat)
    requires k < |PREFIXES| && OccursAt(HIDDEN, PREFIXES[k], i)
    ensures (k == 0 && i == 0) || (k == 1 && i == 7)
  {
    assert HIDDEN[i] == PREFIXES[k][0] && HIDDEN[i + 1] == PREFIXES[k][1];
  }

  lemma HiddenSecretStays()
    ensures Redact(HIDDEN) == MARK + " x"
  {
    var text, n := HIDDEN, |PREFIXES|;
    assert OccursAt(text, PREFIXES[0], 0);
    assert Taken(text, PREFIXES, 0, 0);
    assert InSecret(text, PREFIXES[0], 0, 7);
    assert IsDelimiter(text[13]) && |PREFIXES[0]| == 7;
    assert !Taken(text, PREFIXES, 1, 7);
    forall j: nat ensures Gone(text, PREFIXES, n, j) <==> j < 13 {
      assert InStretch(text, PREFIXES[0], 0, j) <==> j < 13;
      if j < 13 { assert TakenOver(text, PREFIXES, 0, 0, j); }
      forall k: nat, i: nat | k < n && TakenOver(text, PREFIXES, k, i, j) ensures j < 13 {
        OccurrencesInHidden(k, i);
      }
    }
    RunIsRendered(text, PREFIXES, n, MARK, 0, 13);
    KeptIsRendered(text, PREFIXES, n, MARK, 13, 2);
    RedactIsRendered(text);
  }
}
