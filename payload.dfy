/**
 * From the generative provider's free-form reply to JSON candidates.
 *
 * The reply text is searched with three patterns in priority order, as
 * JavaScript's `String.prototype.match` would: a ```json fenced block, then
 * any ``` fenced block, then a bare JSON array (batch adapter) or object
 * (per-question route generator). The capture group is used when it is
 * non-empty, else the whole match; every ``` is removed and the result
 * trimmed before it reaches `JSON.parse`, which is an oracle here.
 */
module Payload {
  import opened Wrappers
  import opened Text

  /** The characters that JavaScript's `\s` and `String.prototype.trim` treat as white space. */
  predicate IsSpace(c: char) {
    var n := c as int;
    n == 0x09 || n == 0x0A || n == 0x0B || n == 0x0C || n == 0x0D || n == 0x20 ||
    n == 0xA0 || n == 0x1680 || (0x2000 <= n <= 0x200A) || n == 0x2028 || n == 0x2029 ||
    n == 0x202F || n == 0x205F || n == 0x3000 || n == 0xFEFF
  }

  /** Neither starts nor ends with white space. */
  predicate Trimmed(s: string) {
    s == [] || (!IsSpace(s[0]) && !IsSpace(s[|s| - 1]))
  }

  function TrimStart(s: string): (r: string)
    ensures |r| <= |s| && r == s[|s| - |r|..]
    ensures forall i :: 0 <= i < |s| - |r| ==> IsSpace(s[i])
    ensures r == [] || !IsSpace(r[0])
  {
    if s != [] && IsSpace(s[0]) then TrimStart(s[1..]) else s
  }

  function TrimEnd(s: string): (r: string)
    ensures |r| <= |s| && r == s[..|r|]
    ensures forall i :: |r| <= i < |s| ==> IsSpace(s[i])
    ensures r == [] || !IsSpace(r[|r| - 1])
  {
    if s != [] && IsSpace(s[|s| - 1]) then TrimEnd(s[..|s| - 1]) else s
  }

  /** Every character is white space. */
  predicate AllSpace(s: string) {
    forall k :: 0 <= k < |s| ==> IsSpace(s[k])
  }

  /**
   * `String.prototype.trim`: the slice of `s` left after removing the white
   * space at both ends; what is removed is white space only, and the slice
   * neither starts nor ends with white space.
   */
  function Trim(s: string): (r: string)
    ensures Trimmed(r)
    ensures Trimmed(s) ==> r == s
    ensures exists i, j :: 0 <= i <= j <= |s| && r == s[i..j] && AllSpace(s[..i]) && AllSpace(s[j..])
  {
    var t := TrimStart(s);
    var r := TrimEnd(t);
    var i := |s| - |t|;
    assert r == s[i..i + |r|];
    var tail := s[i + |r|..];
    assert AllSpace(tail) by {
      forall k | 0 <= k < |tail| ensures IsSpace(tail[k]) {
        assert tail[k] == t[|r| + k];
      }
    }
    r
  }

  const Fence := "```"

  /** The characters of `s` other than backticks, in order. */
  function Unticked(s: string): (r: string)
    ensures |r| <= |s|
  {
    if s == [] then [] else (if s[0] == '`' then [] else [s[0]]) + Unticked(s[1..])
  }

  /**
   * `s.replace(/```/g, "")`: fences are removed, scanning left to right
   * without overlaps. Only backticks go, a multiple of three of them, and
   * every other character stays in order.
   */
  function StripFences(s: string): (r: string)
    ensures |r| <= |s| && (|s| - |r|) % 3 == 0
    ensures Unticked(r) == Unticked(s)
  {
    if |s| < 3 then s
    else if s[..3] == Fence then
      assert Unticked(s) == Unticked(s[1..]) == Unticked(s[2..]) == Unticked(s[3..]) by {
        assert s[1..][1..] == s[2..] && s[2..][1..] == s[3..];
      }
      StripFences(s[3..])
    else
      assert Unticked([s[0]] + StripFences(s[1..])) == Unticked(s) by {
        assert ([s[0]] + StripFences(s[1..]))[1..] == StripFences(s[1..]);
      }
      [s[0]] + StripFences(s[1..])
  }

  /** Text that does not start with a backtick keeps its first character in front. */
  lemma StripHead(s: string)
    requires s != [] && s[0] != '`'
    ensures StripFences(s) == [s[0]] + StripFences(s[1..])
  {
    if |s| < 3 {
      assert s == [s[0]] + s[1..];
    } else {
      assert s[..3][0] == s[0];
    }
  }

  /** After `replace(/```/g, "")` no fence is left: removals never join backticks into a new fence. */
  lemma {:induction false} StripFencesLeavesNone(s: string)
    ensures forall k :: !OccursAt(StripFences(s), Fence, k)
    decreases |s|
  {
    var r := StripFences(s);
    if |s| < 3 {
    } else if s[..3] == Fence {
      StripFencesLeavesNone(s[3..]);
    } else {
      var t := s[1..];
      var rest := StripFences(t);
      StripFencesLeavesNone(t);
      assert r == [s[0]] + rest;
      forall k: nat | OccursAt(r, Fence, k) ensures false {
        if k > 0 {
          assert r[k..k + 3] == rest[k - 1..k + 2];
          assert OccursAt(rest, Fence, k - 1);
        } else {
          assert r[0] == '`' && r[1] == '`' && r[2] == '`' by {
            assert r[..3] == Fence;
          }
          assert s[0] == '`' && rest[0] == '`' && rest[1] == '`';
          assert t[0] != '`' || t[1] != '`' by {
            assert s[..3] == [s[0], t[0], t[1]];
          }
          if t[0] != '`' {
            StripHead(t);
          } else if |t| >= 3 {
            assert t[..3][1] == t[1];
            assert rest == [t[0]] + StripFences(t[1..]);
            StripHead(t[1..]);
          }
        }
      }
    }
  }

  /** Text without a fence passes through unchanged. */
  lemma {:induction false} StripFencesNoFence(s: string)
    requires forall k :: !OccursAt(s, Fence, k)
    ensures StripFences(s) == s
  {
    if |s| >= 3 {
      assert !OccursAt(s, Fence, 0);
      assert s[..3] != Fence;
      forall k: nat ensures !OccursAt(s[1..], Fence, k) {
        if OccursAt(s[1..], Fence, k) {
          assert s[k + 1..k + 4] == s[1..][k..k + 3];
          assert OccursAt(s, Fence, k + 1);
        }
      }
      StripFencesNoFence(s[1..]);
      assert s == [s[0]] + s[1..];
    }
  }

  /** An occurrence inside a slice is an occurrence in the whole text, shifted by the slice's start. */
  lemma SliceOccurrences(text: string, pat: string, a: nat, b: nat)
    requires a <= b <= |text|
    ensures forall k: nat :: OccursAt(text[a..b], pat, k) ==> OccursAt(text, pat, a + k)
  {
    forall k: nat | OccursAt(text[a..b], pat, k) ensures OccursAt(text, pat, a + k) {
      assert k + |pat| <= b - a;
      var inner, outer := text[a..b][k..k + |pat|], text[a + k..a + k + |pat|];
      assert forall i :: 0 <= i < |pat| ==> inner[i] == outer[i];
      assert inner == outer;
    }
  }

  /**
   * A regular-expression match: where it starts in the text (`index`), the
   * matched text, and the first capture group when the pattern has one.
   */
  datatype Match = Match(index: nat, whole: string, group: Option<string>)

  /** The match's text is the text's slice at the match's index. */
  predicate InText(text: string, m: Match) {
    m.index + |m.whole| <= |text| && text[m.index..m.index + |m.whole|] == m.whole
  }

  /**
   * `m` is the leftmost, shortest match of `open([\s\S]*?)close`: it
   * starts at the first occurrence of `open`, and ends with the first
   * occurrence of `close` after that opener.
   */
  ghost predicate FirstPair(text: string, open: string, close: string, m: Match) {
    m.group.Some? && m.whole == open + m.group.value + close && InText(text, m) &&
    (forall k: nat :: k < m.index ==> !OccursAt(text, open, k)) &&
    (forall k: nat :: m.index + |open| <= k < m.index + |m.whole| - |close| ==> !OccursAt(text, close, k))
  }

  /** No occurrence of `open` is followed by an occurrence of `close`. */
  ghost predicate NoPair(text: string, open: string, close: string) {
    forall p: nat, q: nat :: OccursAt(text, open, p) && OccursAt(text, close, q) ==> q < p + |open|
  }

  /** The first opener at `p` and the first closer after it at `q` delimit the leftmost, shortest match. */
  lemma PairAt(text: string, open: string, close: string, p: nat, q: nat, body: string)
    requires close != []
    requires OccursAt(text, open, p) && forall k: nat :: k < p ==> !OccursAt(text, open, k)
    requires p + |open| <= q && OccursAt(text, close, q)
    requires forall k: nat :: p + |open| <= k < q ==> !OccursAt(text, close, k)
    requires body == text[p + |open|..q]
    ensures FirstPair(text, open, close, Match(p, text[p..q + |close|], Some(body)))
    ensures forall k :: !OccursAt(body, close, k)
  {
    assert text[p..p + |open|] == open && text[q..q + |close|] == close;
    assert text[p..q + |close|] == text[p..p + |open|] + body + text[q..q + |close|];
    SliceOccurrences(text, close, p + |open|, q);
  }

  /** The leftmost, shortest `open([\s\S]*?)close` match, searched with `indexOf`. */
  function MatchPair(text: string, open: string, close: string): (m: Option<Match>)
    requires close != []
    ensures m.Some? ==> FirstPair(text, open, close, m.value)
    ensures m.Some? ==> forall k :: !OccursAt(m.value.group.value, close, k)
    ensures m.None? ==> NoPair(text, open, close)
  {
    match FindFrom(text, open, 0)
    case None => None
    case Some(p) =>
      match FindFrom(text, close, p + |open|)
      case None => None
      case Some(q) =>
        PairAt(text, open, close, p, q, text[p + |open|..q]);
        Some(Match(p, text[p..q + |close|], Some(text[p + |open|..q])))
  }

  const JsonOpen := "```json\n"
  const JsonClose := "\n```"

  /** /```json\n([\s\S]*?)\n```/ */
  function MatchJsonFence(text: string): (m: Option<Match>)
    ensures m.Some? ==> FirstPair(text, JsonOpen, JsonClose, m.value)
    ensures m.Some? ==> forall k :: !OccursAt(m.value.group.value, JsonClose, k)
    ensures m.None? ==> NoPair(text, JsonOpen, JsonClose)
  {
    MatchPair(text, JsonOpen, JsonClose)
  }

  /** /```([\s\S]*?)```/ */
  function MatchFence(text: string): (m: Option<Match>)
    ensures m.Some? ==> FirstPair(text, Fence, Fence, m.value)
    ensures m.Some? ==> forall k :: !OccursAt(m.value.group.value, Fence, k)
    ensures m.None? ==> NoPair(text, Fence, Fence)
  {
    MatchPair(text, Fence, Fence)
  }

  /** /{[\s\S]*?}/: from the first '{' to the first '}' after it. */
  function MatchBareObject(text: string): (m: Option<Match>)
    ensures m.Some? ==> m.value.group.None? && |m.value.whole| >= 2 && InText(text, m.value)
    ensures m.Some? ==> m.value.whole[0] == '{' && m.value.whole[|m.value.whole| - 1] == '}'
    ensures m.Some? ==> forall k :: 0 <= k < m.value.index ==> text[k] != '{'
    ensures m.Some? ==> forall i :: 0 < i < |m.value.whole| - 1 ==> m.value.whole[i] != '}'
    ensures m.None? ==> forall p, q :: 0 <= p < q < |text| && text[p] == '{' ==> text[q] != '}'
  {
    match FindFrom(text, "{", 0)
    case None =>
      assert forall p :: 0 <= p < |text| ==> text[p] != '{' by {
        forall p | 0 <= p < |text| ensures text[p] != '{' {
          OccursAtChar(text, '{', p);
        }
      }
      None
    case Some(p) =>
      OccursAtChar(text, '{', p);
      assert forall p' :: 0 <= p' < p ==> text[p'] != '{' by {
        forall p' | 0 <= p' < p ensures text[p'] != '{' {
          OccursAtChar(text, '{', p');
        }
      }
      match FindFrom(text, "}", p + 1)
      case None =>
        assert forall q :: p + 1 <= q < |text| ==> text[q] != '}' by {
          forall q | p + 1 <= q < |text| ensures text[q] != '}' {
            OccursAtChar(text, '}', q);
          }
        }
        None
      case Some(q) =>
        OccursAtChar(text, '}', q);
        assert forall i :: p + 1 <= i < q ==> text[i] != '}' by {
          forall i | p + 1 <= i < q ensures text[i] != '}' {
            OccursAtChar(text, '}', i);
          }
        }
        Some(Match(p, text[p..q + 1], None))
  }

  /** The end of a run of white space starting at `i`. */
  function SkipSpaces(text: string, i: nat): (j: nat)
    requires i <= |text|
    ensures i <= j <= |text|
    ensures forall k :: i <= k < j ==> IsSpace(text[k])
    ensures j < |text| ==> !IsSpace(text[j])
    decreases |text| - i
  {
    if i < |text| && IsSpace(text[i]) then SkipSpaces(text, i + 1) else i
  }

  /** `}\s*\]` matched at `r`: the index just past the ']'. */
  function CloseAt(text: string, r: nat): (e: Option<nat>)
    ensures e.Some? ==> r < e.value <= |text| && text[r] == '}' && text[e.value - 1] == ']'
  {
    if r < |text| && text[r] == '}' then
      var j := SkipSpaces(text, r + 1);
      if j < |text| && text[j] == ']' then Some(j + 1) else None
    else None
  }

  /** The lazy `[\s\S]*?` before `}\s*\]`: the first position at or after `from` where the tail matches. */
  function LazyClose(text: string, from: nat): (r: Option<nat>)
    ensures r.Some? ==> from <= r.value && CloseAt(text, r.value).Some?
    ensures forall k :: from <= k && (r.None? || k < r.value) ==> CloseAt(text, k).None?
    decreases |text| - from
  {
    if from >= |text| then None
    else if CloseAt(text, from).Some? then Some(from)
    else LazyClose(text, from + 1)
  }

  /** /\[\s*{[\s\S]*?}\s*\]/ tried at position `p`: the end of the match. */
  function ArrayAt(text: string, p: nat): (e: Option<nat>)
    ensures e.Some? ==> p < e.value <= |text| && text[p] == '[' && text[e.value - 1] == ']'
  {
    if p < |text| && text[p] == '[' then
      var a := SkipSpaces(text, p + 1);
      if a < |text| && text[a] == '{' then
        match LazyClose(text, a + 1)
        case None => None
        case Some(k) => CloseAt(text, k)
      else None
    else None
  }

  /**
   * `m` is the leftmost match of the bare-array pattern at or after `from`:
   * the pattern matches at `m.index`, spanning exactly `m.whole`, and at no
   * earlier position from `from` on.
   */
  ghost predicate LeftmostArray(text: string, from: nat, m: Match) {
    m.group.None? && InText(text, m) && from <= m.index &&
    ArrayAt(text, m.index) == Some(m.index + |m.whole|) &&
    forall p :: from <= p < m.index ==> ArrayAt(text, p).None?
  }

  /** The leftmost match of /\[\s*{[\s\S]*?}\s*\]/ at or after `from`. */
  function MatchBareArrayFrom(text: string, from: nat): (m: Option<Match>)
    ensures m.Some? ==> m.value.group.None? && |m.value.whole| >= 1
    ensures m.Some? ==> m.value.whole[0] == '[' && m.value.whole[|m.value.whole| - 1] == ']'
    ensures m.None? ==> forall p :: from <= p ==> ArrayAt(text, p).None?
    decreases |text| - from
  {
    if from >= |text| then None
    else match ArrayAt(text, from)
      case Some(e) => Some(Match(from, text[from..e], None))
      case None => MatchBareArrayFrom(text, from + 1)
  }

  /** The bare-array match found from `from` on is the leftmost one, and it is the slice of the text it spans. */
  lemma {:induction false} BareArrayLeftmost(text: string, from: nat)
    ensures MatchBareArrayFrom(text, from).Some? ==> LeftmostArray(text, from, MatchBareArrayFrom(text, from).value)
    decreases |text| - from
  {
    if from < |text| {
      match ArrayAt(text, from)
      case Some(e) =>
        assert |text[from..e]| == e - from;
      case None =>
        BareArrayLeftmost(text, from + 1);
    }
  }

  /** Which bare JSON shape the third pattern looks for. */
  datatype BareShape = BareArray | BareObject

  /** The first of the three patterns that matches, in priority order. */
  function FirstMatch(text: string, shape: BareShape): (m: Option<Match>)
    ensures MatchJsonFence(text).Some? ==> m == MatchJsonFence(text)
    ensures MatchJsonFence(text).None? && MatchFence(text).Some? ==> m == MatchFence(text)
    ensures MatchJsonFence(text).None? && MatchFence(text).None? ==>
      m == (if shape == BareArray then MatchBareArrayFrom(text, 0) else MatchBareObject(text))
    ensures m.None? <==>
      (MatchJsonFence(text).None? && MatchFence(text).None? &&
       (if shape == BareArray then MatchBareArrayFrom(text, 0) else MatchBareObject(text)).None?)
  {
    var fenced := MatchJsonFence(text);
    if fenced.Some? then fenced
    else
      var plain := MatchFence(text);
      if plain.Some? then plain
      else match shape
        case BareArray => MatchBareArrayFrom(text, 0)
        case BareObject => MatchBareObject(text)
  }

  /** `match[1] || match[0]`: an empty or absent group falls back to the whole match. */
  function JsonText(m: Match): string {
    if m.group.Some? && m.group.value != "" then m.group.value else m.whole
  }

  /** Trimming text without a fence leaves none. */
  lemma TrimKeepsNoFence(t: string)
    requires forall k :: !OccursAt(t, Fence, k)
    ensures forall k :: !OccursAt(Trim(t), Fence, k)
  {
    var i, j :| 0 <= i <= j <= |t| && Trim(t) == t[i..j] && AllSpace(t[..i]) && AllSpace(t[j..]);
    SliceOccurrences(t, Fence, i, j);
  }

  /** The text handed to `JSON.parse`, or None when no pattern matches. */
  function ExtractPayload(text: string, shape: BareShape): (r: Option<string>)
    ensures r.None? <==> FirstMatch(text, shape).None?
    ensures r.Some? ==> Trimmed(r.value)
    ensures r.Some? ==> forall k :: !OccursAt(r.value, Fence, k)
  {
    match FirstMatch(text, shape)
    case None => None
    case Some(m) =>
      var stripped := StripFences(JsonText(m));
      StripFencesLeavesNone(JsonText(m));
      TrimKeepsNoFence(stripped);
      Some(Trim(stripped))
  }

  /**
   * Round trip: a trimmed, fence-free, non-empty body wrapped in a ```json
   * block is extracted unchanged, whatever bare shape is configured.
   */
  lemma FencedRoundTrip(body: string, shape: BareShape)
    requires body != [] && Trimmed(body)
    requires forall k :: !OccursAt(body, Fence, k)
    ensures ExtractPayload(JsonOpen + body + JsonClose, shape) == Some(body)
  {
    var text := JsonOpen + body + JsonClose;
    var n := |JsonOpen|;
    assert OccursAt(text, JsonOpen, 0) by {
      assert text[0..n] == JsonOpen;
    }
    assert FindFrom(text, JsonOpen, 0) == Some(0);
    var q := n + |body|;
    assert OccursAt(text, JsonClose, q) by {
      assert text[q..q + |JsonClose|] == JsonClose;
    }
    forall k | n <= k < q ensures !OccursAt(text, JsonClose, k) {
      if k + |JsonClose| <= q {
        assert !OccursAt(body, Fence, k + 1 - n);
        assert text[k + 1..k + 4] == body[k + 1 - n..k + 4 - n];
      } else {
        assert text[q] == '\n';
        assert text[k..k + |JsonClose|][q - k] == text[q];
      }
    }
    assert FindFrom(text, JsonClose, n) == Some(q);
    assert text[n..q] == body;
    assert MatchJsonFence(text) == Some(Match(0, text[0..q + |JsonClose|], Some(body)));
    StripFencesNoFence(body);
  }

  /** A text with no backtick has no fence. */
  lemma NoTickNoFence(t: string)
    requires forall i :: 0 <= i < |t| ==> t[i] != '`'
    ensures forall k :: !OccursAt(t, Fence, k)
  {
    NeverOccurs(t, Fence);
  }

  /** A bare match without backticks and with non-blank ends is the payload as it stands. */
  lemma ExtractBare(text: string, shape: BareShape, m: Match)
    requires FirstMatch(text, shape) == Some(m) && m.group.None? && Trimmed(m.whole)
    requires forall i :: 0 <= i < |m.whole| ==> m.whole[i] != '`'
    ensures ExtractPayload(text, shape) == Some(m.whole)
  {
    NoTickNoFence(m.whole);
    StripFencesNoFence(m.whole);
  }

  /** In a text without backticks neither fenced pattern matches. */
  lemma NoFencedMatch(text: string)
    requires forall i :: 0 <= i < |text| ==> text[i] != '`'
    ensures MatchJsonFence(text).None? && MatchFence(text).None?
  {
    NoTickNoFence(text);
    NeverOccurs(text, JsonOpen);
    assert FindFrom(text, JsonOpen, 0).None?;
    assert FindFrom(text, Fence, 0).None?;
  }

  /** Wrapped in ``` on both sides, a body without backticks has fences only at the two ends. */
  lemma PlainFenceSites(body: string)
    requires body != []
    requires forall i :: 0 <= i < |body| ==> body[i] != '`'
    ensures forall k: nat :: OccursAt(Fence + body + Fence, Fence, k) ==> k == 0 || k == |body| + 3
  {
    var text := Fence + body + Fence;
    forall k: nat | 0 < k < |body| + 3 && k + 3 <= |text| ensures !OccursAt(text, Fence, k) {
      var j := if k < 3 then 3 else k;
      assert text[k..k + 3][j - k] == text[j] == body[j - 3];
    }
  }

  /** The ```json pattern cannot match a trimmed body wrapped in plain fences. */
  lemma PlainFenceNoJson(body: string)
    requires body != [] && Trimmed(body)
    requires forall i :: 0 <= i < |body| ==> body[i] != '`'
    ensures MatchJsonFence(Fence + body + Fence).None?
  {
    var text := Fence + body + Fence;
    PlainFenceSites(body);
    forall q: nat | q + 4 <= |text| ensures !OccursAt(text, JsonClose, q) {
      assert text[q..q + 4][1..] == text[q + 1..q + 4];
      if q + 1 == |body| + 3 {
        assert text[q..q + 4][0] == body[|body| - 1];
      } else {
        assert !OccursAt(text, Fence, q + 1);
      }
    }
    match FindFrom(text, JsonOpen, 0)
    case None =>
    case Some(p) =>
      assert FindFrom(text, JsonClose, p + |JsonOpen|).None?;
  }

  /**
   * Round trip for the plain fence: a trimmed, non-empty body without
   * backticks, wrapped in ``` on both sides, is extracted unchanged. The
   * ```json pattern cannot match, because its closer would have to follow a
   * newline at the end of the body.
   */
  lemma PlainFencedRoundTrip(body: string, shape: BareShape)
    requires body != [] && Trimmed(body)
    requires forall i :: 0 <= i < |body| ==> body[i] != '`'
    ensures ExtractPayload(Fence + body + Fence, shape) == Some(body)
  {
    var text := Fence + body + Fence;
    var n := |text|;
    PlainFenceNoJson(body);
    PlainFenceSites(body);
    assert OccursAt(text, Fence, 0) by {
      assert text[..3] == Fence;
    }
    assert OccursAt(text, Fence, n - 3) by {
      assert text[n - 3..] == Fence;
    }
    assert FindFrom(text, Fence, 3) == Some(n - 3);
    assert text[3..n - 3] == body;
    assert MatchFence(text) == Some(Match(0, text[0..n], Some(body)));
    NoTickNoFence(body);
    StripFencesNoFence(body);
  }

  /**
   * Round trip for the bare array: in a text without backticks whose first
   * '[' starts a match of the bare-array pattern, the payload is exactly the
   * span of that match.
   */
  lemma BareArrayRoundTrip(text: string, p: nat)
    requires forall i :: 0 <= i < |text| ==> text[i] != '`'
    requires ArrayAt(text, p).Some?
    requires forall i :: 0 <= i < p ==> text[i] != '['
    ensures ExtractPayload(text, BareArray) == Some(text[p..ArrayAt(text, p).value])
  {
    NoFencedMatch(text);
    BareArrayLeftmost(text, 0);
    var m := MatchBareArrayFrom(text, 0);
    assert m.Some?;
    assert m.value.index == p by {
      if m.value.index < p {
      }
    }
    var whole := m.value.whole;
    assert whole == text[p..ArrayAt(text, p).value];
    assert forall i :: 0 <= i < |whole| ==> whole[i] != '`' by {
      forall i | 0 <= i < |whole| ensures whole[i] != '`' {
        assert whole[i] == text[p + i];
      }
    }
    ExtractBare(text, BareArray, m.value);
  }

  /** The bare-object pattern matches from the first '{' to the first '}' after it. */
  lemma BareObjectAt(text: string, p: nat, q: nat)
    requires p < q < |text| && text[p] == '{' && text[q] == '}'
    requires forall i :: 0 <= i < p ==> text[i] != '{'
    requires forall i :: p < i < q ==> text[i] != '}'
    ensures MatchBareObject(text) == Some(Match(p, text[p..q + 1], None))
  {
    var m := MatchBareObject(text);
    assert m.Some?;
    var i, whole := m.value.index, m.value.whole;
    assert text[i] == '{' by {
      assert text[i..i + |whole|][0] == text[i];
    }
    assert i == p;
    var e := i + |whole| - 1;
    assert text[e] == '}' by {
      assert text[i..i + |whole|][|whole| - 1] == text[e];
    }
  }

  /**
   * Round trip for the bare object: in a text without backticks whose first
   * '{' is at p and whose first '}' after it is at q, the payload is exactly
   * text[p..q + 1].
   */
  lemma BareObjectRoundTrip(text: string, p: nat, q: nat)
    requires forall i :: 0 <= i < |text| ==> text[i] != '`'
    requires p < q < |text| && text[p] == '{' && text[q] == '}'
    requires forall i :: 0 <= i < p ==> text[i] != '{'
    requires forall i :: p < i < q ==> text[i] != '}'
    ensures ExtractPayload(text, BareObject) == Some(text[p..q + 1])
  {
    NoFencedMatch(text);
    BareObjectAt(text, p, q);
    var whole := text[p..q + 1];
    assert forall k :: 0 <= k < |whole| ==> whole[k] != '`' by {
      forall k | 0 <= k < |whole| ensures whole[k] != '`' {
        assert whole[k] == text[p + k];
      }
    }
    ExtractBare(text, BareObject, Match(p, whole, None));
  }


  /** With no '[' from `from` on, the bare-array pattern finds nothing. */
  lemma {:induction false} NoBracketNoArray(text: string, from: nat)
    requires forall i :: from <= i < |text| ==> text[i] != '['
    ensures MatchBareArrayFrom(text, from).None?
    decreases |text| - from
  {
    if from < |text| {
      assert ArrayAt(text, from).None?;
      NoBracketNoArray(text, from + 1);
    }
  }

  /**
   * Prose without a backtick, a '[' or a '{' yields no payload under either
   * bare shape: the caller then has nothing to parse.
   */
  lemma PlainTextHasNoPayload(text: string, shape: BareShape)
    requires forall i :: 0 <= i < |text| ==> text[i] != '`' && text[i] != '[' && text[i] != '{'
    ensures ExtractPayload(text, shape).None?
  {
    NeverOccurs(text, JsonOpen);
    assert MatchJsonFence(text).None? by {
      assert FindFrom(text, JsonOpen, 0).None?;
    }
    NeverOccurs(text, Fence);
    assert MatchFence(text).None? by {
      assert FindFrom(text, Fence, 0).None?;
    }
    NeverOccurs(text, "{");
    assert MatchBareObject(text).None? by {
      assert FindFrom(text, "{", 0).None?;
    }
    NoBracketNoArray(text, 0);
    assert FirstMatch(text, shape).None?;
  }

  /** A pattern whose first character is absent from the text never occurs in it. */
  lemma NeverOccurs(text: string, pat: string)
    requires pat != [] && forall i :: 0 <= i < |text| ==> text[i] != pat[0]
    ensures forall k: nat :: !OccursAt(text, pat, k)
  {
    forall k: nat | k + |pat| <= |text| ensures !OccursAt(text, pat, k) {
      assert text[k..k + |pat|][0] == text[k];
    }
  }

  /** A JSON property as the validators see it: missing, present with the wrong type, or present. */
  datatype Field<+T> = Absent | Mistyped | Has(value: T)

  /**
   * One parsed JSON element. `JsonNull` is the literal `null`; any other
   * value is read property by property (a number or a string has every
   * property `Absent`).
   */
  datatype Candidate =
    | JsonNull
    | Record(question: Field<string>, options: Field<seq<string>>, correctAnswer: Field<int>,
             category: Field<string>, year: Field<int>)

  /** The outcome of `JSON.parse`: a syntax error, an array, or any other value. */
  datatype Parsed = Unparseable | JsonArray(items: seq<Candidate>) | JsonValue(value: Candidate)

  /**
   * From a provider reply to parsed JSON. `None` stands for a call that threw;
   * an empty text, a reply no pattern matches and a syntax error all end as
   * `Unparseable`, which every caller treats as "no questions from this reply".
   */
  function ParseReply(reply: Option<string>, parse: string -> Parsed, shape: BareShape): Parsed {
    if reply.None? || reply.value == "" then Unparseable
    else match ExtractPayload(reply.value, shape)
      case None => Unparseable
      case Some(json) => parse(json)
  }

  /** A reply that is a trimmed, fence-free body in a json fence is parsed from exactly that body. */
  lemma FencedReplyParses(body: string, parse: string -> Parsed, shape: BareShape)
    requires body != [] && Trimmed(body)
    requires forall k :: !OccursAt(body, Fence, k)
    ensures ParseReply(Some(JsonOpen + body + JsonClose), parse, shape) == parse(body)
  {
    FencedRoundTrip(body, shape);
  }

  /** A thrown call, an empty reply and a reply with no backtick, '[' or '{' are all unparseable. */
  lemma PlainReplyUnparseable(reply: Option<string>, parse: string -> Parsed, shape: BareShape)
    requires reply.Some? ==> forall i :: 0 <= i < |reply.value| ==>
      reply.value[i] != '`' && reply.value[i] != '[' && reply.value[i] != '{'
    ensures ParseReply(reply, parse, shape) == Unparseable
  {
    if reply.Some? {
      PlainTextHasNoPayload(reply.value, shape);
    }
  }
}
