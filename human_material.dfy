/**
 * The one-off patch that adds a "human" entry to two dictionary literals of the
 * ray tracer's material tables, as text transformations.
 *
 * Each patch searches for `NAME\s*=\s*{\s*(.*?)\n\s*}\s*` (dot matches newline),
 * right-strips the captured inner part, appends a comma unless it already ends
 * with one, then the new entry, and leaves the text before the block opener's
 * inner part and from the closing line on as it was. A text that already
 * contains `"human"` is left alone, which makes the patch idempotent.
 */
module HumanMaterial {
  import opened Wrappers

  /** Python's notion of a whitespace character, used both by `\s` and by right-stripping. */
  predicate IsSpace(c: char) {
    var n := c as int;
    || n == 0x20 || (0x09 <= n <= 0x0D) || (0x1C <= n <= 0x1F) || n == 0x85 || n == 0xA0
    || n == 0x1680 || (0x2000 <= n <= 0x200A) || n == 0x2028 || n == 0x2029 || n == 0x202F
    || n == 0x205F || n == 0x3000
  }

  /** `s[i..j]` is all whitespace. */
  predicate AllSpace(s: string, i: nat, j: nat) {
    j <= |s| && forall k :: i <= k < j ==> IsSpace(s[k])
  }

  /** The end of the longest whitespace run starting at `i` (a greedy `\s*`). */
  function SkipSpace(s: string, i: nat): (j: nat)
    requires i <= |s|
    ensures i <= j <= |s| && AllSpace(s, i, j) && (j == |s| || !IsSpace(s[j]))
    decreases |s| - i
  {
    if i == |s| || !IsSpace(s[i]) then i else SkipSpace(s, i + 1)
  }

  /** A whitespace run that stops before a non-whitespace character is the greedy one. */
  lemma {:induction false} SkipSpaceFirst(s: string, i: nat, j: nat)
    requires i <= j < |s| && AllSpace(s, i, j) && !IsSpace(s[j])
    ensures SkipSpace(s, i) == j
    decreases j - i
  {
    if i < j {
      SkipSpaceFirst(s, i + 1, j);
    }
  }

  /** No whitespace run from `i` is longer than the greedy one. */
  lemma {:induction false} SkipSpaceLongest(s: string, i: nat, h: nat)
    requires i <= h && AllSpace(s, i, h)
    ensures h <= SkipSpace(s, i)
    decreases h - i
  {
    if i < h {
      SkipSpaceLongest(s, i + 1, h);
    }
  }

  // ---- the pattern, declaratively ----

  /** The positions of one match and its three groups: head `[start, headEnd)`, inner `[headEnd, innerEnd)`, tail `[innerEnd, end)`. */
  datatype Match = Match(start: nat, headEnd: nat, innerEnd: nat, end: nat)

  /** `NAME\s*=\s*{` starts at `p`, with its brace at `c`. */
  predicate Opener(s: string, name: string, p: nat, c: nat) {
    && p + |name| <= c < |s| && s[p..p + |name|] == name && s[c] == '{'
    && exists a :: p + |name| <= a < c && AllSpace(s, p + |name|, a) && s[a] == '=' && AllSpace(s, a + 1, c)
  }

  /** `\n\s*}\s*` spans `[q, t)`, its last `\s*` taking all the whitespace there is. */
  predicate Closer(s: string, q: nat, t: nat) {
    && q < t <= |s| && s[q] == '\n' && (t == |s| || !IsSpace(s[t]))
    && exists r :: q < r < t && AllSpace(s, q + 1, r) && s[r] == '}' && AllSpace(s, r + 1, t)
  }

  /** `m` is a way for the whole pattern to match `s`. */
  ghost predicate Shaped(s: string, name: string, m: Match) {
    && (exists c: nat :: Opener(s, name, m.start, c) && c < m.headEnd && AllSpace(s, c + 1, m.headEnd))
    && m.headEnd <= m.innerEnd
    && Closer(s, m.innerEnd, m.end)
  }

  /**
   * The backtracking order at one start position: the greedy `\s*` after the brace
   * tries the longer head first, then the lazy inner part the shorter body first.
   */
  predicate Preferred(m: Match, m': Match) {
    m.headEnd > m'.headEnd || (m.headEnd == m'.headEnd && m.innerEnd <= m'.innerEnd)
  }

  // ---- the search, operationally ----

  /** A closing line `\n\s*}` starts at `q`. */
  predicate TailAt(s: string, q: nat) {
    && q < |s| && s[q] == '\n'
    && var r := SkipSpace(s, q + 1);
       r < |s| && s[r] == '}'
  }

  /** The first closing line at or after `from`. */
  function FirstTail(s: string, from: nat): (r: Option<nat>)
    requires from <= |s|
    ensures r.Some? ==> from <= r.value < |s| && TailAt(s, r.value)
    ensures r.Some? ==> forall q :: from <= q < r.value ==> !TailAt(s, q)
    ensures r.None? ==> forall q :: from <= q ==> !TailAt(s, q)
    decreases |s| - from
  {
    if from == |s| then None
    else if TailAt(s, from) then Some(from)
    else FirstTail(s, from + 1)
  }

  /** The last newline in `s[b..e]`. */
  function LastNewline(s: string, b: nat, e: nat): (r: Option<nat>)
    requires b <= e <= |s|
    ensures r.Some? ==> b <= r.value < e && s[r.value] == '\n'
    ensures r.Some? ==> forall k :: r.value < k < e ==> s[k] != '\n'
    ensures r.None? ==> forall k :: b <= k < e ==> s[k] != '\n'
    decreases e - b
  {
    if e == b then None
    else if s[e - 1] == '\n' then Some(e - 1)
    else LastNewline(s, b, e - 1)
  }

  /** Where `NAME\s*=\s*{` starting at `p` has its brace; both whitespace runs are forced to be greedy. */
  function BraceAt(s: string, name: string, p: nat): (r: Option<nat>)
    requires p <= |s|
    ensures r.Some? ==> Opener(s, name, p, r.value)
  {
    if p + |name| > |s| || s[p..p + |name|] != name then None
    else
      var a := SkipSpace(s, p + |name|);
      if a == |s| || s[a] != '=' then None
      else
        var c := SkipSpace(s, a + 1);
        if c == |s| || s[c] != '{' then None else Some(c)
  }

  /** The opener at `p`, if there is one, is the one `BraceAt` finds. */
  lemma BraceAtFinds(s: string, name: string, p: nat, c: nat)
    requires p <= |s| && Opener(s, name, p, c)
    ensures BraceAt(s, name, p) == Some(c)
  {
    var a :| p + |name| <= a < c && AllSpace(s, p + |name|, a) && s[a] == '=' && AllSpace(s, a + 1, c);
    SkipSpaceFirst(s, p + |name|, a);
    SkipSpaceFirst(s, a + 1, c);
  }

  /**
   * The rest of the match once the brace is at `c`. With the longest whitespace run
   * after the brace, the inner part ends at the first closing line; failing that, a
   * shorter run can only succeed when the brace's run itself holds a newline followed
   * by `}`, and the last such newline wins, with an empty inner part.
   */
  function BlockAfter(s: string, p: nat, c: nat): (r: Option<Match>)
    requires c < |s|
    ensures r.Some? ==>
              && r.value.start == p && c < r.value.headEnd <= r.value.innerEnd
              && AllSpace(s, c + 1, r.value.headEnd) && Closer(s, r.value.innerEnd, r.value.end)
  {
    var e := SkipSpace(s, c + 1);
    match FirstTail(s, e)
    case Some(q) =>
      var r := SkipSpace(s, q + 1);
      Some(Match(p, e, q, SkipSpace(s, r + 1)))
    case None =>
      if e < |s| && s[e] == '}' then
        match LastNewline(s, c + 1, e)
        case Some(l) => Some(Match(p, l, l, SkipSpace(s, e + 1)))
        case None => None
      else None
  }

  /** A closing line `\n\s*}\s*` starts with a closing line in the sense of `TailAt`. */
  lemma CloserTail(s: string, q: nat, t: nat)
    requires Closer(s, q, t)
    ensures TailAt(s, q)
  {
    var r :| q < r < t && AllSpace(s, q + 1, r) && s[r] == '}' && AllSpace(s, r + 1, t);
    SkipSpaceFirst(s, q + 1, r);
  }

  /**
   * A closing line that starts inside the whitespace run after the brace ends at the
   * first character after that run, which is then `}`; the last newline of the run
   * is at or after it.
   */
  lemma NewlineBeforeBrace(s: string, c: nat, q: nat)
    requires c < |s| && c + 1 <= q < SkipSpace(s, c + 1) && TailAt(s, q)
    ensures var e := SkipSpace(s, c + 1);
            && e < |s| && s[e] == '}'
            && LastNewline(s, c + 1, e).Some? && q <= LastNewline(s, c + 1, e).value
  {
    SkipSpaceLongest(s, q + 1, SkipSpace(s, c + 1));
  }

  /** Any way to finish the match after the brace at `c` ranks no higher than `BlockAfter`'s. */
  lemma BlockAfterBest(s: string, c: nat, m': Match)
    requires c < m'.headEnd <= m'.innerEnd && AllSpace(s, c + 1, m'.headEnd) && Closer(s, m'.innerEnd, m'.end)
    ensures BlockAfter(s, m'.start, c).Some?
    ensures Preferred(BlockAfter(s, m'.start, c).value, m')
  {
    var e := SkipSpace(s, c + 1);
    SkipSpaceLongest(s, c + 1, m'.headEnd);
    CloserTail(s, m'.innerEnd, m'.end);
    if FirstTail(s, e).None? {
      NewlineBeforeBrace(s, c, m'.innerEnd);
    }
  }

  /** The match at start position `p`, if any. */
  function MatchAt(s: string, name: string, p: nat): (r: Option<Match>)
    requires p <= |s|
    ensures r.Some? ==> Shaped(s, name, r.value) && r.value.start == p
    ensures r.Some? ==> p <= r.value.headEnd <= r.value.innerEnd < r.value.end <= |s|
  {
    match BraceAt(s, name, p)
    case None => None
    case Some(c) => BlockAfter(s, p, c)
  }

  /** `re.search`: the match at the leftmost start position where there is one. */
  function Search(s: string, name: string, from: nat): (r: Option<Match>)
    requires from <= |s|
    ensures r.Some? ==> from <= r.value.start <= r.value.headEnd <= r.value.innerEnd < r.value.end <= |s|
    decreases |s| - from
  {
    match MatchAt(s, name, from)
    case Some(m) => Some(m)
    case None => if from == |s| then None else Search(s, name, from + 1)
  }

  /** Any match of the pattern at `p` ranks no higher than what `MatchAt` finds there. */
  lemma MatchAtBest(s: string, name: string, m': Match)
    requires Shaped(s, name, m')
    ensures m'.start <= |s| && MatchAt(s, name, m'.start).Some?
    ensures Preferred(MatchAt(s, name, m'.start).value, m')
  {
    var c: nat :| Opener(s, name, m'.start, c) && c < m'.headEnd && AllSpace(s, c + 1, m'.headEnd);
    BraceAtFinds(s, name, m'.start, c);
    BlockAfterBest(s, c, m');
  }

  /**
   * `Search` returns the match `re.search` returns: a match of the pattern, at the
   * leftmost start position that has one, and first in backtracking order there;
   * it finds nothing exactly when the pattern does not match at any position from `from`.
   */
  lemma {:induction false} SearchSpec(s: string, name: string, from: nat)
    requires from <= |s|
    ensures Search(s, name, from).Some? ==>
              && Shaped(s, name, Search(s, name, from).value)
              && forall m' :: Shaped(s, name, m') && from <= m'.start ==>
                   && Search(s, name, from).value.start <= m'.start
                   && (Search(s, name, from).value.start == m'.start ==> Preferred(Search(s, name, from).value, m'))
    ensures Search(s, name, from).None? ==> forall m' :: Shaped(s, name, m') ==> m'.start < from
    decreases |s| - from
  {
    if MatchAt(s, name, from).Some? {
      forall m' | Shaped(s, name, m') && from == m'.start
        ensures Preferred(Search(s, name, from).value, m')
      {
        MatchAtBest(s, name, m');
      }
    } else {
      forall m' | Shaped(s, name, m') ensures m'.start != from {
        if m'.start == from { MatchAtBest(s, name, m'); }
      }
      forall m' | Shaped(s, name, m') ensures m'.start <= |s| {
        MatchAtBest(s, name, m');
      }
      if from < |s| {
        SearchSpec(s, name, from + 1);
      }
    }
  }

  // ---- the patch ----

  const HumanKey := "\"human\""
  const ColorsBlock := "ITU_MATERIAL_COLORS"
  const PropertiesBlock := "ITU_MATERIALS_PROPERTIES"
  /** The colour entry, around its key. */
  const ColorLead := "\n        "
  const ColorRest := " : (0.91, 0.76, 0.65)"
  const ColorEntry := ColorLead + HumanKey + ColorRest
  /** The two frequency ranges of the material, around its key. */
  const PropertiesLead := "\n\n    "
  const PropertiesRest :=
    "            :   { (0.5, 10.)    :   (43.0, -0.16, 0.8, 0.7),\n"
    + "                              (10., 100.)   :   (60.0, -0.30, 1.2, 0.5) },"
  const PropertiesEntry := PropertiesLead + HumanKey + PropertiesRest

  /** Substring containment: some suffix of `s` starts with `sub`. */
  predicate Contains(s: string, sub: string)
    decreases |s|
  {
    sub <= s || (s != [] && Contains(s[1..], sub))
  }

  /** An occurrence at any position counts. */
  lemma {:induction false} ContainsAt(s: string, sub: string, i: nat)
    requires i + |sub| <= |s| && s[i..i + |sub|] == sub
    ensures Contains(s, sub)
    decreases i
  {
    if i == 0 {
      assert sub <= s;
    } else {
      assert s[1..][i - 1..i - 1 + |sub|] == sub;
      ContainsAt(s[1..], sub, i - 1);
    }
  }

  /** Right-stripping: the longest prefix that does not end in whitespace. */
  function RStrip(s: string): (r: string)
    ensures r <= s && AllSpace(s, |r|, |s|)
    ensures r == [] || !IsSpace(r[|r| - 1])
    decreases |s|
  {
    if s == [] || !IsSpace(s[|s| - 1]) then s else RStrip(s[..|s| - 1])
  }

  /** `inner` with a comma appended unless it already ends with one. */
  function WithComma(inner: string): (r: string)
    ensures |r| > 0 && r[|r| - 1] == ','
    ensures r == inner <==> |inner| > 0 && inner[|inner| - 1] == ','
    ensures r != inner ==> r == inner + [',']
  {
    if |inner| > 0 && inner[|inner| - 1] == ',' then inner else inner + [',']
  }

  /**
   * The new text for match `m`: the text before the match, the head, the right-stripped
   * inner part with its comma, the entry, the tail and the text after the match. It
   * keeps everything up to the end of the head and everything from the start of the tail.
   */
  function Splice(text: string, m: Match, entry: string): (r: string)
    requires m.start <= m.headEnd <= m.innerEnd <= m.end <= |text|
    ensures r == text[..m.headEnd] + WithComma(RStrip(text[m.headEnd..m.innerEnd])) + entry + text[m.innerEnd..]
  {
    var head := text[m.start..m.headEnd];
    var inner := WithComma(RStrip(text[m.headEnd..m.innerEnd]));
    var tail := text[m.innerEnd..m.end];
    assert text[..m.start] + head == text[..m.headEnd];
    assert tail + text[m.end..] == text[m.innerEnd..];
    text[..m.start] + head + inner + entry + tail + text[m.end..]
  }

  /** Skipped (nothing written), the `sys.exit` for a missing block, or the new text. */
  datatype PatchOutcome = AlreadyPresent | BlockNotFound | Patched(text: string)

  /** `patch_colors` and `patch_properties`, for the block `name` and the text `entry` they add. */
  function Patch(text: string, name: string, entry: string): (r: PatchOutcome)
    ensures r == AlreadyPresent <==> Contains(text, HumanKey)
  {
    if Contains(text, HumanKey) then AlreadyPresent
    else match Search(text, name, 0)
      case None => BlockNotFound
      case Some(m) => Patched(Splice(text, m, entry))
  }

  function PatchColors(text: string): PatchOutcome {
    Patch(text, ColorsBlock, ColorEntry)
  }

  function PatchProperties(text: string): PatchOutcome {
    Patch(text, PropertiesBlock, PropertiesEntry)
  }

  /** The script exits without writing exactly when the block pattern matches nowhere. */
  lemma PatchNotFound(text: string, name: string, entry: string)
    requires !Contains(text, HumanKey)
    ensures Patch(text, name, entry) == BlockNotFound <==> forall m :: !Shaped(text, name, m)
  {
    SearchSpec(text, name, 0);
    if Search(text, name, 0).Some? {
      assert Shaped(text, name, Search(text, name, 0).value);
    }
  }

  /** The spliced text holds the entry, so it contains every text the entry contains. */
  lemma SpliceContains(text: string, m: Match, before: string, after: string)
    requires m.start <= m.headEnd <= m.innerEnd <= m.end <= |text|
    ensures Contains(Splice(text, m, before + HumanKey + after), HumanKey)
  {
    var front := text[..m.headEnd] + WithComma(RStrip(text[m.headEnd..m.innerEnd])) + before;
    var out := Splice(text, m, before + HumanKey + after);
    assert out == front + HumanKey + (after + text[m.innerEnd..]);
    assert out[|front|..|front| + |HumanKey|] == HumanKey;
    ContainsAt(out, HumanKey, |front|);
  }

  /** Once patched with an entry that names "human", a second run skips: the patch is idempotent. */
  lemma PatchIdempotent(text: string, name: string, before: string, after: string)
    requires Patch(text, name, before + HumanKey + after).Patched?
    ensures Patch(Patch(text, name, before + HumanKey + after).text, name, before + HumanKey + after) == AlreadyPresent
  {
    SpliceContains(text, Search(text, name, 0).value, before, after);
  }

  /** Running `patch_colors` twice is the same as running it once. */
  lemma PatchColorsIdempotent(text: string)
    requires PatchColors(text).Patched?
    ensures PatchColors(PatchColors(text).text) == AlreadyPresent
  {
    PatchIdempotent(text, ColorsBlock, ColorLead, ColorRest);
  }

  /** Running `patch_properties` twice is the same as running it once. */
  lemma PatchPropertiesIdempotent(text: string)
    requires PatchProperties(text).Patched?
    ensures PatchProperties(PatchProperties(text).text) == AlreadyPresent
  {
    PatchIdempotent(text, PropertiesBlock, PropertiesLead, PropertiesRest);
  }

  /** Right-stripping a whitespace-only text leaves nothing. */
  lemma {:induction false} RStripAllSpace(s: string)
    requires AllSpace(s, 0, |s|)
    ensures RStrip(s) == []
    decreases |s|
  {
    if s != [] {
      RStripAllSpace(s[..|s| - 1]);
    }
  }

  /**
   * A block whose inner part is empty or only whitespace still gets the comma,
   * so the entry follows a lone `,` right after the opening brace.
   */
  lemma EmptyBlockGetsLoneComma(text: string, m: Match, entry: string)
    requires m.start <= m.headEnd <= m.innerEnd <= m.end <= |text|
    requires AllSpace(text, m.headEnd, m.innerEnd)
    ensures Splice(text, m, entry) == text[..m.headEnd] + [','] + entry + text[m.innerEnd..]
  {
    RStripAllSpace(text[m.headEnd..m.innerEnd]);
  }
}
