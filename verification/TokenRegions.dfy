/** Where the region masks come from: delimiter search, prompt / chain-of-thought / answer marking, and the two in-place
    refinements of the masks (cutting the answer at "assert", narrowing the prompt to the hint sentence). */
module TokenRegions {
  import opened Options
  import opened AttentionFlow
  import opened AttentionMasks

  type Tokens = seq<int>

  predicate MatchesAt(tokens: Tokens, pattern: Tokens, i: int) {
    0 <= i && i + |pattern| <= |tokens| && tokens[i..i + |pattern|] == pattern
  }

  /** The first match at or after `start`. */
  function FirstMatch(tokens: Tokens, pattern: Tokens, start: nat): (r: Option<nat>)
    ensures r.Some? ==> start <= r.value && MatchesAt(tokens, pattern, r.value)
    ensures forall i :: start <= i < (if r.Some? then r.value else |tokens| + 1) ==> !MatchesAt(tokens, pattern, i)
    decreases |tokens| - start
  {
    if start + |pattern| > |tokens| then None
    else if tokens[start..start + |pattern|] == pattern then Some(start)
    else FirstMatch(tokens, pattern, start + 1)
  }

  method FindFirstSubsequence(tokens: Tokens, pattern: Tokens, start: nat) returns (r: Option<nat>)
    ensures r == FirstMatch(tokens, pattern, start)
  {
    var pos := start;
    while pos < |tokens| - |pattern| + 1
      invariant start <= pos
      invariant FirstMatch(tokens, pattern, start) == FirstMatch(tokens, pattern, pos)
    {
      if tokens[pos..pos + |pattern|] == pattern {
        return Some(pos);
      }
      pos := pos + 1;
    }
    return None;
  }

  /** The delimiter search takes the LAST match; -1 stands for no match. */
  method FindLastSubsequence(tokens: Tokens, pattern: Tokens) returns (pos: int)
    ensures -1 <= pos
    ensures 0 <= pos ==> MatchesAt(tokens, pattern, pos)
    ensures forall i :: pos < i ==> !MatchesAt(tokens, pattern, i)
  {
    if |pattern| > |tokens| {
      return -1;
    }
    pos := |tokens| - |pattern|;
    while pos > -1
      invariant -1 <= pos <= |tokens| - |pattern|
      invariant forall i :: pos < i ==> !MatchesAt(tokens, pattern, i)
    {
      if tokens[pos..pos + |pattern|] == pattern {
        return;
      }
      pos := pos - 1;
    }
  }

  // ---------------------------------------------------------------------------------------------
  // Regions
  // ---------------------------------------------------------------------------------------------

  /** The three masks of one row of length n, given where the response starts and the last token of the delimiter. */
  function MarkRegions(n: nat, responseStart: int, delimiterEnd: Option<int>): (r: Regions)
    ensures r.Fits(n)
  {
    Regions(
      seq(n, i => i < responseStart),
      seq(n, i => delimiterEnd.Some? && responseStart <= i <= delimiterEnd.value),
      seq(n, i => if delimiterEnd.Some? then i > delimiterEnd.value else i >= responseStart))
  }

  method FindRegions(tokens: Tokens, responseLength: int, delimiter: Tokens) returns (r: Regions, delimiterEnd: Option<int>)
    ensures r == MarkRegions(|tokens|, |tokens| - responseLength, delimiterEnd)
    ensures delimiterEnd.None? <==> forall i :: !MatchesAt(tokens, delimiter, i)
    ensures delimiterEnd.Some? ==> MatchesAt(tokens, delimiter, delimiterEnd.value - |delimiter| + 1)
    ensures delimiterEnd.Some? ==>
              forall i :: delimiterEnd.value - |delimiter| + 1 < i ==> !MatchesAt(tokens, delimiter, i)
  {
    var pos := FindLastSubsequence(tokens, delimiter);
    delimiterEnd := if pos >= 0 then Some(pos + |delimiter| - 1) else None;
    r := MarkRegions(|tokens|, |tokens| - responseLength, delimiterEnd);
  }

  /** Exact: prompt and answer overlap if and only if the last delimiter ends inside the prompt, short of its last
      token. The search does not look where the response starts, so a prompt that quotes the delimiter can cause it. */
  lemma RegionsDisjointIff(n: nat, responseStart: int, delimiterEnd: Option<int>)
    requires delimiterEnd.Some? ==> -1 <= delimiterEnd.value
    ensures var r := MarkRegions(n, responseStart, delimiterEnd);
            Disjoint(r.prompt, r.answer)
            <==> delimiterEnd.None? || delimiterEnd.value + 1 >= responseStart || delimiterEnd.value + 1 >= n
  {
    var r := MarkRegions(n, responseStart, delimiterEnd);
    if delimiterEnd.Some? && delimiterEnd.value + 1 < responseStart && delimiterEnd.value + 1 < n {
      var i: nat := delimiterEnd.value + 1;
      assert At(r.prompt, i) && At(r.answer, i);
    }
  }

  /** Exact, end to end: a response token after the delimiter depends on the prompt for some model if and only if the
      model has two layers, the prompt is not empty, and a delimiter ends inside the response. In particular a response
      without a delimiter is cut off from the prompt altogether. */
  lemma ResponseDependsOnPromptIff(n: nat, responseStart: int, delimiterEnd: Option<int>, a: nat, depth: nat)
    requires delimiterEnd.Some? ==> -1 <= delimiterEnd.value < a
    requires responseStart <= a < n
    ensures SomeModelDepends(Resolve(MarkRegions(n, responseStart, delimiterEnd), ViaCot), n,
                             Positions(MarkRegions(n, responseStart, delimiterEnd).prompt), a, depth)
            <==> depth >= 2 && delimiterEnd.Some? && 0 < responseStart <= delimiterEnd.value
  {
    var r := MarkRegions(n, responseStart, delimiterEnd);
    assert r.answer[a];
    assert r.EffectiveAnswer() == r.answer;
    AnswerDependsOnPromptIffBridged(r, n, a, depth);
    if delimiterEnd.Some? && 0 < responseStart <= delimiterEnd.value {
      assert Bridges(r, 0, responseStart, a);
    }
  }

  ghost predicate MarksFirst(region: seq<bool>, count: nat) {
    forall i: nat :: At(region, i) <==> i < count
  }

  /** Rows are padded on the right but the response is counted from the padded end, so the prompt mask is the prompt
      exactly for unpadded rows; padding moves it into the response. */
  lemma PromptMaskIsPromptIffUnpadded(promptLength: nat, responseLength: nat, padding: nat, delimiterEnd: Option<int>)
    ensures var n := promptLength + responseLength + padding;
            MarksFirst(MarkRegions(n, n - responseLength, delimiterEnd).prompt, promptLength) <==> padding == 0
  {
    var n := promptLength + responseLength + padding;
    if padding > 0 {
      assert At(MarkRegions(n, n - responseLength, delimiterEnd).prompt, promptLength);
    }
  }

  // ---------------------------------------------------------------------------------------------
  // First and last marked token of a row
  // ---------------------------------------------------------------------------------------------

  function FirstTrue(row: seq<bool>): (r: Option<nat>)
    ensures r.None? <==> forall i: nat :: !At(row, i)
    ensures r.Some? ==> At(row, r.value) && forall i: nat :: i < r.value ==> !At(row, i)
  {
    if row == [] then None
    else if row[0] then assert At(row, 0); Some(0)
    else
      var rest := FirstTrue(row[1..]);
      assert forall i: nat :: i > 0 ==> At(row, i) == At(row[1..], i - 1);
      assert forall i: nat :: At(row[1..], i) == At(row, i + 1);
      if rest.Some? then Some(rest.value + 1) else None
  }

  function LastTrue(row: seq<bool>): (r: Option<nat>)
    ensures r.None? <==> forall i: nat :: !At(row, i)
    ensures r.Some? ==> At(row, r.value) && forall i: nat :: i > r.value ==> !At(row, i)
  {
    if row == [] then None
    else if row[|row| - 1] then assert At(row, |row| - 1); Some(|row| - 1)
    else
      var init := row[..|row| - 1];
      assert forall i: nat :: At(row, i) <==> At(init, i);
      assert forall i: nat :: At(init, i) ==> At(row, i);
      LastTrue(init)
  }

  function RowOf(mask: array2<bool>, i: nat): (row: seq<bool>)
    requires i < mask.Length0
    reads mask
    ensures |row| == mask.Length1
  {
    seq(mask.Length1, j requires 0 <= j < mask.Length1 reads mask => mask[i, j])
  }

  function Rows(mask: array2<bool>): (rows: seq<seq<bool>>)
    reads mask
    ensures |rows| == mask.Length0
    ensures forall i :: 0 <= i < |rows| ==> rows[i] == RowOf(mask, i)
  {
    seq(mask.Length0, i requires 0 <= i < mask.Length0 reads mask => RowOf(mask, i))
  }

  // ---------------------------------------------------------------------------------------------
  // Cutting the answer at the first "assert"
  // ---------------------------------------------------------------------------------------------

  /** Where the answer of a row is cut: the first match at or after its first answer token. */
  function AssertCut(tokens: Tokens, pattern: Tokens, answer: seq<bool>): Option<nat> {
    match FirstTrue(answer)
    case None => None
    case Some(first) => FirstMatch(tokens, pattern, first)
  }

  function CutRow(tokens: Tokens, pattern: Tokens, answer: seq<bool>): (row: seq<bool>)
    ensures |row| == |answer|
  {
    match AssertCut(tokens, pattern, answer)
    case None => answer
    case Some(cut) => ClearFrom(answer, cut)
  }

  /** How many of the first n rows are cut. */
  function CutCount(inputs: seq<Tokens>, pattern: Tokens, rows: seq<seq<bool>>, n: nat): nat
    requires n <= |inputs| == |rows|
  {
    if n == 0 then 0
    else CutCount(inputs, pattern, rows, n - 1) + if AssertCut(inputs[n - 1], pattern, rows[n - 1]).Some? then 1 else 0
  }

  method ClearRowFrom(mask: array2<bool>, i: nat, cut: nat)
    requires i < mask.Length0
    modifies mask
    ensures RowOf(mask, i) == ClearFrom(old(RowOf(mask, i)), cut)
    ensures forall r :: 0 <= r < mask.Length0 && r != i ==> RowOf(mask, r) == old(RowOf(mask, r))
  {
    forall j | cut <= j < mask.Length1 {
      mask[i, j] := false;
    }
  }

  method TruncateOneRow(tokens: Tokens, pattern: Tokens, answerMask: array2<bool>, i: nat) returns (cut: bool)
    requires i < answerMask.Length0
    modifies answerMask
    ensures RowOf(answerMask, i) == CutRow(tokens, pattern, old(RowOf(answerMask, i)))
    ensures cut <==> AssertCut(tokens, pattern, old(RowOf(answerMask, i))).Some?
    ensures forall r :: 0 <= r < answerMask.Length0 && r != i ==> RowOf(answerMask, r) == old(RowOf(answerMask, r))
  {
    var first := FirstTrue(RowOf(answerMask, i));
    if first.None? {
      return false;
    }
    var pos := FindFirstSubsequence(tokens, pattern, first.value);
    if pos.Some? {
      ClearRowFrom(answerMask, i, pos.value);
    }
    cut := pos.Some?;
  }

  method TruncateAtAssert(inputs: seq<Tokens>, pattern: Tokens, answerMask: array2<bool>) returns (truncated: nat)
    requires answerMask.Length0 == |inputs|
    modifies answerMask
    ensures forall i :: 0 <= i < |inputs| ==>
              RowOf(answerMask, i) == CutRow(inputs[i], pattern, old(RowOf(answerMask, i)))
    ensures truncated == CutCount(inputs, pattern, old(Rows(answerMask)), |inputs|)
  {
    truncated := 0;
    ghost var rows := Rows(answerMask);
    for i := 0 to |inputs|
      invariant truncated == CutCount(inputs, pattern, rows, i)
      invariant forall r :: 0 <= r < i ==> RowOf(answerMask, r) == CutRow(inputs[r], pattern, rows[r])
      invariant forall r :: i <= r < |inputs| ==> RowOf(answerMask, r) == rows[r]
    {
      var cut := TruncateOneRow(inputs[i], pattern, answerMask, i);
      truncated := if cut then truncated + 1 else truncated;
    }
  }

  /** The cut never falls before the answer, so the answer survives exactly when the pattern is not its first token. */
  lemma TruncationKeepsAnswerIff(tokens: Tokens, pattern: Tokens, answer: seq<bool>)
    requires FirstTrue(answer).Some?
    ensures true in CutRow(tokens, pattern, answer)
            <==> !MatchesAt(tokens, pattern, FirstTrue(answer).value)
  {
    var r := Regions([], [], answer);
    assert answer[FirstTrue(answer).value];
    match AssertCut(tokens, pattern, answer)
    case None =>
    case Some(cut) =>
      CutKeepsAnswerIffTokenBefore(r, cut);
      assert FirstTrue(answer).value < cut ==> At(answer, FirstTrue(answer).value);
  }

  // ---------------------------------------------------------------------------------------------
  // Narrowing the prompt to the hint sentence
  // ---------------------------------------------------------------------------------------------

  ghost predicate SeparatorAt(tokens: Tokens, separators: seq<Tokens>, i: int) {
    exists v | v in separators :: MatchesAt(tokens, v, i)
  }

  /** The earliest match of any separator at or after `start`. */
  function EarliestSeparator(tokens: Tokens, separators: seq<Tokens>, start: nat): (r: Option<nat>)
    ensures r.Some? ==> start <= r.value && SeparatorAt(tokens, separators, r.value)
    ensures forall i, v :: v in separators && start <= i < (if r.Some? then r.value else |tokens| + 1) ==>
              !MatchesAt(tokens, v, i)
  {
    if separators == [] then None
    else
      var last := |separators| - 1;
      var best, p := EarliestSeparator(tokens, separators[..last], start), FirstMatch(tokens, separators[last], start);
      assert separators == separators[..last] + [separators[last]];
      if p.Some? && (best.None? || p.value < best.value) then p else best
  }

  function PromptEnd(prompt: seq<bool>): (end: nat)
    requires FirstTrue(prompt).Some?
    ensures forall i: nat :: At(prompt, i) ==> i < end
  {
    LastTrue(prompt).value + 1
  }

  /** Where the hint sentence ends: at the separator, if it comes before the end of the prompt. */
  function HintEnd(separator: Option<nat>, end: nat): nat {
    if separator.Some? && separator.value < end then separator.value else end
  }

  /** The hint sentence of a row as a half-open interval, when the hint starts inside the prompt. */
  function HintInterval(tokens: Tokens, hint: Tokens, separators: seq<Tokens>, prompt: seq<bool>): Option<(nat, nat)> {
    var first := FirstTrue(prompt);
    if first.None? then None
    else
      var pos := FirstMatch(tokens, hint, first.value);
      if pos.None? || pos.value >= PromptEnd(prompt) then None
      else Some((pos.value, HintEnd(EarliestSeparator(tokens, separators, pos.value + |hint|), PromptEnd(prompt))))
  }

  function NarrowRow(tokens: Tokens, hint: Tokens, separators: seq<Tokens>, prompt: seq<bool>): (row: seq<bool>)
    ensures |row| == |prompt|
  {
    match HintInterval(tokens, hint, separators, prompt)
    case None => prompt
    case Some((lo, hi)) => seq(|prompt|, i requires 0 <= i < |prompt| => prompt[i] && lo <= i < hi)
  }

  method FindEarliestSeparator(tokens: Tokens, separators: seq<Tokens>, start: nat) returns (sep: Option<nat>)
    ensures sep == EarliestSeparator(tokens, separators, start)
  {
    sep := None;
    for v := 0 to |separators|
      invariant sep == EarliestSeparator(tokens, separators[..v], start)
    {
      var p := FindFirstSubsequence(tokens, separators[v], start);
      assert separators[..v + 1][..v] == separators[..v];
      if p.Some? && (sep.None? || p.value < sep.value) {
        sep := p;
      }
    }
    assert separators[..|separators|] == separators;
  }

  function KeepBetween(row: seq<bool>, lo: nat, stop: Option<nat>): (kept: seq<bool>)
    ensures |kept| == |row|
  {
    seq(|row|, j requires 0 <= j < |row| => row[j] && lo <= j && (stop.None? || j < stop.value))
  }

  /** Clears one row before `pos`, and from `stop` on when that is given. */
  method ClearAround(mask: array2<bool>, i: nat, pos: nat, stop: Option<nat>)
    requires i < mask.Length0
    modifies mask
    ensures RowOf(mask, i) == KeepBetween(old(RowOf(mask, i)), pos, stop)
    ensures forall r :: 0 <= r < mask.Length0 && r != i ==> RowOf(mask, r) == old(RowOf(mask, r))
  {
    forall j | 0 <= j < mask.Length1 && j < pos {
      mask[i, j] := false;
    }
    if stop.Some? {
      forall j | stop.value <= j < mask.Length1 {
        mask[i, j] := false;
      }
    }
  }

  method NarrowOneRow(tokens: Tokens, hint: Tokens, separators: seq<Tokens>, promptMask: array2<bool>, i: nat)
    returns (found: bool)
    requires i < promptMask.Length0
    modifies promptMask
    ensures RowOf(promptMask, i) == NarrowRow(tokens, hint, separators, old(RowOf(promptMask, i)))
    ensures found <==> HintInterval(tokens, hint, separators, old(RowOf(promptMask, i))).Some?
    ensures forall r :: 0 <= r < promptMask.Length0 && r != i ==> RowOf(promptMask, r) == old(RowOf(promptMask, r))
  {
    var row := RowOf(promptMask, i);
    var first, last := FirstTrue(row), LastTrue(row);
    if first.None? {
      return false;
    }
    var end := last.value + 1;
    var pos := FindFirstSubsequence(tokens, hint, first.value);
    if pos.None? || pos.value >= end {
      return false;
    }
    var sep := FindEarliestSeparator(tokens, separators, pos.value + |hint|);
    var stop := if sep.Some? && sep.value < end then sep else None;
    KeptIsNarrowed(tokens, hint, separators, row, pos.value, sep, stop);
    ClearAround(promptMask, i, pos.value, stop);
    return true;
  }

  lemma KeptIsNarrowed(tokens: Tokens, hint: Tokens, separators: seq<Tokens>, row: seq<bool>, pos: nat, sep: Option<nat>,
                       stop: Option<nat>)
    requires FirstTrue(row).Some?
    requires HintInterval(tokens, hint, separators, row) == Some((pos, HintEnd(sep, PromptEnd(row))))
    requires stop == if sep.Some? && sep.value < PromptEnd(row) then sep else None
    ensures KeepBetween(row, pos, stop) == NarrowRow(tokens, hint, separators, row)
  {
    forall j: nat | j < |row| && row[j]
      ensures j < PromptEnd(row)
    {
      assert At(row, j);
    }
  }

  /** How many of the first n rows are narrowed. */
  function HintCount(inputs: seq<Tokens>, hint: Tokens, separators: seq<Tokens>, rows: seq<seq<bool>>, n: nat): nat
    requires n <= |inputs| == |rows|
  {
    if n == 0 then 0
    else HintCount(inputs, hint, separators, rows, n - 1)
         + if HintInterval(inputs[n - 1], hint, separators, rows[n - 1]).Some? then 1 else 0
  }

  ghost predicate NarrowedUpTo(inputs: seq<Tokens>, hint: Tokens, separators: seq<Tokens>, rows: seq<seq<bool>>,
                               mask: array2<bool>, n: nat)
    requires |rows| == |inputs| == mask.Length0
    reads mask
  {
    && (forall r :: 0 <= r < n && r < |rows| ==> RowOf(mask, r) == NarrowRow(inputs[r], hint, separators, rows[r]))
    && (forall r :: n <= r < |rows| ==> RowOf(mask, r) == rows[r])
  }

  method NarrowToHint(inputs: seq<Tokens>, hint: Tokens, separators: seq<Tokens>, promptMask: array2<bool>)
    returns (found: nat)
    requires promptMask.Length0 == |inputs|
    modifies promptMask
    ensures forall i :: 0 <= i < |inputs| ==>
              RowOf(promptMask, i) == NarrowRow(inputs[i], hint, separators, old(RowOf(promptMask, i)))
    ensures found == HintCount(inputs, hint, separators, old(Rows(promptMask)), |inputs|)
  {
    found := 0;
    ghost var rows := Rows(promptMask);
    for i := 0 to |inputs|
      invariant found == HintCount(inputs, hint, separators, rows, i)
      invariant NarrowedUpTo(inputs, hint, separators, rows, promptMask, i)
    {
      var narrowed := NarrowOneRow(inputs[i], hint, separators, promptMask, i);
      found := if narrowed then found + 1 else found;
    }
  }

  /** A narrowed row is the prompt mask cut down to one interval that starts at the first hint match; past the hint
      prefix no separator match starts inside it; and it ends at a separator or with the prompt. */
  lemma NarrowedRowIsHintSentence(tokens: Tokens, hint: Tokens, separators: seq<Tokens>, prompt: seq<bool>)
    requires HintInterval(tokens, hint, separators, prompt).Some?
    ensures var row := NarrowRow(tokens, hint, separators, prompt);
            var (lo, hi) := HintInterval(tokens, hint, separators, prompt).value;
            && (forall i: nat :: At(row, i) <==> At(prompt, i) && lo <= i < hi)
            && MatchesAt(tokens, hint, lo)
            && (forall i: nat | At(row, i) && i >= lo + |hint| :: !SeparatorAt(tokens, separators, i))
            && (SeparatorAt(tokens, separators, hi) || forall i: nat :: At(prompt, i) ==> i < hi)
  {
    var end := LastTrue(prompt).value + 1;
    var pos := FirstMatch(tokens, hint, FirstTrue(prompt).value).value;
    var sep := EarliestSeparator(tokens, separators, pos + |hint|);
    var row := NarrowRow(tokens, hint, separators, prompt);
    forall i: nat | At(row, i) && i >= pos + |hint|
      ensures !SeparatorAt(tokens, separators, i)
    {
      assert sep.Some? ==> i < sep.value;
      assert forall v | v in separators && i <= |tokens| :: !MatchesAt(tokens, v, i);
    }
  }

  /** Narrowing the prompt only opens attention edges. */
  lemma NarrowingOpensEdges(r: Regions, tokens: Tokens, hint: Tokens, separators: seq<Tokens>, kind: MaskKind, q: nat, k: nat)
    requires Resolve(r, kind)(q, k)
    ensures Resolve(r.(prompt := NarrowRow(tokens, hint, separators, r.prompt)), kind)(q, k)
  {
    assert At(NarrowRow(tokens, hint, separators, r.prompt), k) ==> At(r.prompt, k);
  }

  /** What narrowing costs: the prompt tokens behind the hint sentence are in no region any more, so they carry the hint to the
      answer past the chain of thought. Exact for a response token after the delimiter, with the delimiter inside the response
      or missing: some model tells the hint to it past the chain of thought if and only if there are two layers and the hint
      sentence is not empty and ends before the prompt does. */
  lemma HintLeaksPastCotIff(n: nat, responseStart: nat, delimiterEnd: Option<int>, tokens: Tokens, hint: Tokens,
                            separators: seq<Tokens>, a: nat, depth: nat)
    requires responseStart <= a < n
    requires delimiterEnd.Some? ==> responseStart <= delimiterEnd.value + 1 && delimiterEnd.value < a
    ensures var r := MarkRegions(n, responseStart, delimiterEnd);
            var narrowed := r.(prompt := NarrowRow(tokens, hint, separators, r.prompt));
            var sentence := HintInterval(tokens, hint, separators, r.prompt);
            SomeModelDepends(ViaCotPastCot(narrowed), n, Positions(narrowed.prompt), a, depth)
            <==> depth >= 2 && sentence.Some? && sentence.value.0 < sentence.value.1 < responseStart
  {
    var r := MarkRegions(n, responseStart, delimiterEnd);
    var narrowed := r.(prompt := NarrowRow(tokens, hint, separators, r.prompt));
    var sentence := HintInterval(tokens, hint, separators, r.prompt);
    assert r.answer[a];
    assert narrowed.EffectiveAnswer() == r.answer;
    NarrowedPositions(tokens, hint, separators, r.prompt);
    AnswerDependsPastCotIff(narrowed, n, a, depth);
    if sentence.Some? && sentence.value.0 < sentence.value.1 < responseStart {
      assert BridgesPastCot(narrowed, sentence.value.0, sentence.value.1, a);
    }
    if p: nat, c: nat :| BridgesPastCot(narrowed, p, c, a) {
      assert c < responseStart && At(r.prompt, c);
    }
  }

  lemma NarrowedPositions(tokens: Tokens, hint: Tokens, separators: seq<Tokens>, prompt: seq<bool>)
    ensures var sentence := HintInterval(tokens, hint, separators, prompt);
            forall i: nat :: At(NarrowRow(tokens, hint, separators, prompt), i)
                             <==> At(prompt, i) && (sentence.Some? ==> sentence.value.0 <= i < sentence.value.1)
  {
  }
}
