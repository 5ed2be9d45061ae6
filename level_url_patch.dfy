/**
  The config-line patch applied to `RustModule.kvp`.

  The monitor reads the file as text, applies the non-global JavaScript
  replacement of the regex `^Rust\.LevelUrl=.*` (multiline flag) by
  `"Rust.LevelUrl=" + url` with a non-global `String.prototype.replace`,
  writes the result back, re-reads it and accepts the change when the text
  `"Rust.LevelUrl=" + url` occurs anywhere in it.  This module states those
  three steps on `string` (that is, `seq<char>`): the regex search
  (`FirstMatch`), the replacement (`Patch`, including the `$` patterns that
  a JavaScript replacement string interprets) and the substring test
  (`Contains`, `Verified`), and proves what the patch keeps, what it writes,
  when it is idempotent and when the check after it passes.
 */
module LevelUrlPatch {

  datatype Option<T> = None | Some(value: T)

  /** The literal that the regex anchors at a line start. */
  const Key: string := "Rust.LevelUrl="

  /** The characters JavaScript treats as line terminators: `^` in multiline
      mode matches after them and `.` does not match them. */
  predicate IsLineTerminator(c: char) {
    c == '\n' || c == '\r' || c == '\U{2028}' || c == '\U{2029}'
  }

  predicate NoLineTerminator(s: string) {
    forall k :: 0 <= k < |s| ==> !IsLineTerminator(s[k])
  }

  /** `^` in multiline mode holds at position `i`. */
  predicate LineStartAt(s: string, i: nat)
    requires i <= |s|
  {
    i == 0 || IsLineTerminator(s[i - 1])
  }

  /** The text at `i` begins with `Key`. */
  predicate KeyAt(s: string, i: nat) {
    i + |Key| <= |s| && s[i..i + |Key|] == Key
  }

  /** The regex `^Rust\.LevelUrl=.*` (multiline) can start a match at `i`. */
  predicate MatchesAt(s: string, i: nat) {
    KeyAt(s, i) && LineStartAt(s, i)
  }

  /** The leftmost position at or after `i` where the regex matches. */
  function FindFrom(s: string, i: nat): (r: Option<nat>)
    requires i <= |s|
    decreases |s| - i
    ensures r.Some? ==> i <= r.value <= |s| && MatchesAt(s, r.value)
    ensures r.Some? ==> forall q :: i <= q < r.value ==> !MatchesAt(s, q)
    ensures r.None? ==> forall q :: i <= q <= |s| ==> !MatchesAt(s, q)
  {
    if MatchesAt(s, i) then Some(i)
    else if i == |s| then None
    else FindFrom(s, i + 1)
  }

  /** Where a non-global `replace` / `match` with the regex starts its match:
      the first position that starts a line and begins with `Key`. */
  function FirstMatch(s: string): (r: Option<nat>)
    ensures r.Some? ==> MatchesAt(s, r.value)
    ensures r.Some? ==> forall q :: 0 <= q < r.value ==> !MatchesAt(s, q)
    ensures r.None? <==> forall q :: 0 <= q <= |s| ==> !MatchesAt(s, q)
  {
    FindFrom(s, 0)
  }

  /** Where the greedy `.*` starting at `i` stops: the next line terminator
      at or after `i`, or the end of the text. */
  function LineEnd(s: string, i: nat): (e: nat)
    requires i <= |s|
    decreases |s| - i
    ensures i <= e <= |s|
    ensures e == |s| || IsLineTerminator(s[e])
    ensures forall k :: i <= k < e ==> !IsLineTerminator(s[k])
  {
    if i == |s| || IsLineTerminator(s[i]) then i else LineEnd(s, i + 1)
  }

  /** The text a JavaScript replacement string `t` stands for (the
      GetSubstitution step of `String.prototype.replace`) for a regex with
      no capture groups: `$$` is `$`, `$&` the matched text, `` $` `` the
      text before the match, `$'` the text after it; every other `$`
      (including `$1` and `$<`, which refer to groups the regex does not
      have) is literal. */
  function Expand(t: string, matched: string, before: string, after: string): string
    decreases |t|
  {
    if |t| == 0 then []
    else if t[0] == '$' && |t| >= 2 && t[1] == '$' then "$" + Expand(t[2..], matched, before, after)
    else if t[0] == '$' && |t| >= 2 && t[1] == '&' then matched + Expand(t[2..], matched, before, after)
    else if t[0] == '$' && |t| >= 2 && t[1] == '`' then before + Expand(t[2..], matched, before, after)
    else if t[0] == '$' && |t| >= 2 && t[1] == '\'' then after + Expand(t[2..], matched, before, after)
    else [t[0]] + Expand(t[1..], matched, before, after)
  }

  /** The non-global replace of `^Rust\.LevelUrl=.*` (multiline) in `s` by
      `"Rust.LevelUrl=" + url`: the first
      match, from its start up to the next line terminator, is replaced by
      the expansion of the replacement string; with no match the text is
      returned as it is. */
  function Patch(s: string, url: string): string {
    match FirstMatch(s)
    case None => s
    case Some(p) => ReplaceMatch(s, p, LineEnd(s, p + |Key|), Key + url)
  }

  /** `s` with the match `s[p..e]` replaced by the expansion of the
      replacement string `t`. */
  function ReplaceMatch(s: string, p: nat, e: nat, t: string): string
    requires p <= e <= |s|
  {
    s[..p] + Expand(t, s[p..e], s[..p], s[e..]) + s[e..]
  }

  /** `t` occurs in `s` starting at `i`. */
  predicate OccursAt(s: string, t: string, i: nat) {
    i + |t| <= |s| && s[i..i + |t|] == t
  }

  /** The scan behind `String.prototype.includes`, from position `i`. */
  function ContainsFrom(s: string, t: string, i: nat): (b: bool)
    requires i <= |s|
    decreases |s| - i
    ensures b <==> exists k :: i <= k <= |s| && OccursAt(s, t, k)
  {
    if OccursAt(s, t, i) then true
    else if i == |s| then false
    else ContainsFrom(s, t, i + 1)
  }

  /** `s.includes(t)`. */
  function Contains(s: string, t: string): (b: bool)
    ensures b <==> exists k :: 0 <= k <= |s| && OccursAt(s, t, k)
  {
    ContainsFrom(s, t, 0)
  }

  /** The check made on the re-read file: `updatedData.includes("Rust.LevelUrl=" + url)`.
      It is a substring test, not a test of the line the patch wrote. */
  predicate Verified(content: string, url: string) {
    Contains(content, Key + url)
  }

  // ---------------------------------------------------------------------
  // The replacement string

  /** A replacement string without `$` stands for itself. */
  lemma {:induction false} ExpandLiteral(t: string, matched: string, before: string, after: string)
    requires '$' !in t
    ensures Expand(t, matched, before, after) == t
  {
    if |t| > 0 {
      assert t[0] != '$';
      assert '$' !in t[1..] by {
        forall k | 0 <= k < |t[1..]| ensures t[1..][k] != '$' {
          assert t[1..][k] == t[k + 1];
        }
      }
      ExpandLiteral(t[1..], matched, before, after);
    }
  }

  /** A `$`-free prefix of a replacement string is copied as it is. */
  lemma {:induction false} ExpandLiteralPrefix(x: string, y: string, matched: string, before: string, after: string)
    requires '$' !in x
    ensures Expand(x + y, matched, before, after) == x + Expand(y, matched, before, after)
  {
    if |x| > 0 {
      assert (x + y)[0] == x[0] && x[0] != '$';
      assert (x + y)[1..] == x[1..] + y;
      assert '$' !in x[1..] by {
        forall k | 0 <= k < |x[1..]| ensures x[1..][k] != '$' {
          assert x[1..][k] == x[k + 1];
        }
      }
      ExpandLiteralPrefix(x[1..], y, matched, before, after);
    } else {
      assert x + y == y;
    }
  }

  // ---------------------------------------------------------------------
  // Helper facts about the search

  /** Two texts that agree on their first `n` characters agree on whether the
      regex can start a match at any position whose key window fits in them. */
  lemma MatchesAtAgree(a: string, b: string, n: nat, q: nat)
    requires n <= |a| && n <= |b| && a[..n] == b[..n]
    requires q + |Key| <= n
    ensures MatchesAt(a, q) <==> MatchesAt(b, q)
  {
    assert a[q..q + |Key|] == a[..n][q..q + |Key|];
    assert b[q..q + |Key|] == b[..n][q..q + |Key|];
    if q > 0 {
      assert a[q - 1] == a[..n][q - 1];
      assert b[q - 1] == b[..n][q - 1];
    }
  }

  /** `FirstMatch` is the leftmost match: any match with none before it is it. */
  lemma FirstMatchIsLeftmost(s: string, p: nat)
    requires MatchesAt(s, p)
    requires forall q :: 0 <= q < p ==> !MatchesAt(s, q)
    ensures FirstMatch(s) == Some(p)
  {
    var r := FirstMatch(s);
    assert p <= |s|;
    if r.Some? {
      assert !(r.value < p);
      assert !(p < r.value);
    }
  }

  /** `.*` run from inside a stretch without line terminators stops where a
      run from the stretch's start stops. */
  lemma {:induction false} LineEndSkips(s: string, i: nat, j: nat)
    requires i <= j <= |s|
    requires forall k :: i <= k < j ==> !IsLineTerminator(s[k])
    ensures LineEnd(s, i) == LineEnd(s, j)
    decreases j - i
  {
    if i < j {
      LineEndSkips(s, i + 1, j);
    }
  }

  /** `LineEnd` is the first line terminator at or after `i`. */
  lemma LineEndIsFirst(s: string, i: nat, e: nat)
    requires i <= e <= |s|
    requires e == |s| || IsLineTerminator(s[e])
    requires forall k :: i <= k < e ==> !IsLineTerminator(s[k])
    ensures LineEnd(s, i) == e
  {
    LineEndSkips(s, i, e);
  }

  lemma KeyHasNoLineTerminator()
    ensures NoLineTerminator(Key) && '$' !in Key
  {
  }

  lemma SlicesOfConcat(a: string, b: string, c: string)
    ensures (a + b + c)[..|a|] == a
    ensures (a + b + c)[|a|..|a| + |b|] == b
    ensures (a + b + c)[|a| + |b|..] == c
  {
  }

  lemma NoLineTerminatorConcat(a: string, b: string)
    requires NoLineTerminator(a) && NoLineTerminator(b)
    ensures NoLineTerminator(a + b)
  {
    forall k | 0 <= k < |a + b| ensures !IsLineTerminator((a + b)[k]) {
      if k < |a| {
        assert (a + b)[k] == a[k];
      } else {
        assert (a + b)[k] == b[k - |a|];
      }
    }
  }

  /** A stretch `b` without line terminators, followed by nothing or by a
      line terminator, is a whole line: `.*` run from its start stops at its
      end. */
  lemma LineEndOfConcat(a: string, b: string, c: string)
    requires NoLineTerminator(b)
    requires c == [] || IsLineTerminator(c[0])
    ensures LineEnd(a + b + c, |a|) == |a| + |b|
  {
    var t := a + b + c;
    forall k | |a| <= k < |a| + |b| ensures !IsLineTerminator(t[k]) {
      assert t[k] == b[k - |a|];
    }
    if c != [] {
      assert t[|a| + |b|] == c[0];
    }
    LineEndIsFirst(t, |a|, |a| + |b|);
  }

  /** The greedy `.*` after a key at `p` stops where a run from `p` stops. */
  lemma KeyLineEnd(s: string, p: nat)
    requires KeyAt(s, p)
    ensures p + |Key| <= LineEnd(s, p) <= |s|
    ensures LineEnd(s, p + |Key|) == LineEnd(s, p)
  {
    var n := p + |Key|;
    KeyHasNoLineTerminator();
    forall k | p <= k < n ensures !IsLineTerminator(s[k]) {
      assert s[k] == s[p..n][k - p];
    }
    LineEndSkips(s, p, n);
  }

  // ---------------------------------------------------------------------
  // Properties of the patch

  /** With a match, the patch keeps everything before the first line that
      starts with `Key`, replaces that line's text (up to, not including,
      its line terminator) by `Key` followed by the expansion of `url`, and
      keeps everything from the terminator on. */
  lemma PatchExpandsTemplate(s: string, url: string, p: nat)
    requires FirstMatch(s) == Some(p)
    ensures p + |Key| <= LineEnd(s, p) <= |s|
    ensures Patch(s, url)
         == s[..p] + (Key + Expand(url, s[p..LineEnd(s, p)], s[..p], s[LineEnd(s, p)..])) + s[LineEnd(s, p)..]
  {
    KeyLineEnd(s, p);
    var e := LineEnd(s, p);
    assert Patch(s, url) == ReplaceMatch(s, p, e, Key + url);
    KeyHasNoLineTerminator();
    ExpandLiteralPrefix(Key, url, s[p..e], s[..p], s[e..]);
  }

  /** With a match and a `url` without `$`, the first key line becomes exactly
      `Rust.LevelUrl=<url>`; the prefix before it and the suffix from its line
      terminator on are unchanged. */
  lemma PatchReplacesFirstKeyLine(s: string, url: string, p: nat)
    requires FirstMatch(s) == Some(p)
    requires '$' !in url
    ensures p + |Key| <= LineEnd(s, p) <= |s|
    ensures Patch(s, url) == s[..p] + (Key + url) + s[LineEnd(s, p)..]
    ensures Patch(s, url)[..p] == s[..p]
    ensures Patch(s, url)[p + |Key| + |url|..] == s[LineEnd(s, p)..]
  {
    var e := LineEnd(s, p);
    PatchExpandsTemplate(s, url, p);
    ExpandLiteral(url, s[p..e], s[..p], s[e..]);
    SlicesOfConcat(s[..p], Key + url, s[e..]);
  }

  /** Without a line that starts with `Key` the patch changes nothing, and the
      check after it passes exactly when `Rust.LevelUrl=<url>` already occurs
      somewhere in the text (a substring test, not a line test). */
  lemma PatchWithoutMatch(s: string, url: string)
    requires FirstMatch(s) == None
    ensures Patch(s, url) == s
    ensures Verified(Patch(s, url), url) <==> exists k :: 0 <= k <= |s| && OccursAt(s, Key + url, k)
  {
  }

  /** With a match and a `url` without `$`, the written text passes the check
      made when it is read back. */
  lemma PatchThenVerify(s: string, url: string)
    requires FirstMatch(s).Some?
    requires '$' !in url
    ensures Verified(Patch(s, url), url)
  {
    var p := FirstMatch(s).value;
    PatchReplacesFirstKeyLine(s, url, p);
    SlicesOfConcat(s[..p], Key + url, s[LineEnd(s, p)..]);
    assert OccursAt(Patch(s, url), Key + url, p);
  }

  /** After a `$`-free patch, the first match is still where it was. */
  lemma FirstMatchAfterPatch(s: string, url: string, p: nat)
    requires FirstMatch(s) == Some(p)
    requires '$' !in url
    ensures FirstMatch(Patch(s, url)) == Some(p)
  {
    PatchReplacesFirstKeyLine(s, url, p);
    var t := Patch(s, url);
    var n := p + |Key|;
    assert s[p..n] == Key;
    assert t[..n] == s[..n] by {
      assert t[..n] == s[..p] + Key;
      assert s[..n] == s[..p] + s[p..n];
    }
    MatchesAtAgree(s, t, n, p);
    forall q | 0 <= q < p ensures !MatchesAt(t, q) {
      MatchesAtAgree(s, t, n, q);
    }
    FirstMatchIsLeftmost(t, p);
  }

  /** After a patch with a `url` without `$` and line terminators, the
      patched line ends right after the written `url`. */
  lemma LineEndAfterPatch(s: string, url: string, p: nat)
    requires FirstMatch(s) == Some(p)
    requires '$' !in url
    requires NoLineTerminator(url)
    ensures p + |Key| + |url| <= |Patch(s, url)|
    ensures LineEnd(Patch(s, url), p) == p + |Key| + |url|
  {
    var e := LineEnd(s, p);
    PatchReplacesFirstKeyLine(s, url, p);
    KeyHasNoLineTerminator();
    NoLineTerminatorConcat(Key, url);
    LineEndOfConcat(s[..p], Key + url, s[e..]);
  }

  /** Patching twice with the same `url` gives what patching once gives, when
      `url` has no `$` and no line terminator. */
  lemma PatchIdempotent(s: string, url: string)
    requires '$' !in url
    requires NoLineTerminator(url)
    ensures Patch(Patch(s, url), url) == Patch(s, url)
  {
    match FirstMatch(s)
    case None =>
    case Some(p) =>
      var t := Patch(s, url);
      PatchReplacesFirstKeyLine(s, url, p);
      FirstMatchAfterPatch(s, url, p);
      LineEndAfterPatch(s, url, p);
      PatchReplacesFirstKeyLine(t, url, p);
  }

  /** A text that starts with a key line, with value `v`, followed by
      `rest`, which is empty or starts with a line terminator: the match is
      at the start and its line ends after `v`. */
  lemma LeadingKeyLine(v: string, rest: string)
    requires NoLineTerminator(v)
    requires rest == [] || IsLineTerminator(rest[0])
    ensures FirstMatch(Key + v + rest) == Some(0)
    ensures LineEnd(Key + v + rest, 0) == |Key + v|
  {
    var s := Key + v + rest;
    assert KeyAt(s, 0) by {
      assert s[0..|Key|] == Key;
    }
    FirstMatchIsLeftmost(s, 0);
    KeyHasNoLineTerminator();
    NoLineTerminatorConcat(Key, v);
    assert s[..0] + (Key + v) + rest == s;
    LineEndOfConcat(s[..0], Key + v, rest);
  }

  /** The patch of such a text rewrites its first line. */
  lemma PatchLeadingKeyLine(v: string, rest: string, url: string)
    requires NoLineTerminator(v)
    requires rest == [] || IsLineTerminator(rest[0])
    requires '$' !in url
    ensures Patch(Key + v + rest, url) == Key + url + rest
  {
    var s := Key + v + rest;
    LeadingKeyLine(v, rest);
    PatchReplacesFirstKeyLine(s, url, 0);
    assert s[..0] == [];
    assert s[|Key + v|..] == rest;
  }

  /** A text with no line terminator whose first character is not the key's
      has no match. */
  lemma NoMatchInOneLine(s: string)
    requires NoLineTerminator(s)
    requires |s| > 0 && s[0] != Key[0]
    ensures FirstMatch(s) == None
  {
    forall q | 0 <= q <= |s| ensures !MatchesAt(s, q) {
      if q == 0 && |Key| <= |s| {
        assert s[0..|Key|][0] == s[0];
      }
    }
  }

  /** `Rust.LevelUrl=` after a `#` on the same line is not a match, though
      it occurs in the text. */
  lemma KeyInsideLine()
    ensures FirstMatch("#" + Key + "u") == None
    ensures OccursAt("#" + Key + "u", Key + "u", 1)
  {
    var s := "#" + Key + "u";
    KeyHasNoLineTerminator();
    NoLineTerminatorConcat("#", Key);
    NoLineTerminatorConcat("#" + Key, "u");
    assert s[0] == '#';
    NoMatchInOneLine(s);
    assert s[1..] == Key + "u";
  }

  /** `Rust.LevelUrl=` inside a line is not a match: the patch leaves the
      text as it is, yet the check after it passes. */
  lemma KeyInsideLineIsKept()
    ensures Patch("#" + Key + "u", "u") == "#" + Key + "u"
    ensures Verified("#" + Key + "u", "u")
  {
    KeyInsideLine();
    PatchWithoutMatch("#" + Key + "u", "u");
  }

  /** A `url` with a line terminator breaks idempotence: the second patch
      replaces only the part of the written value before the terminator. */
  lemma LineTerminatorInUrlBreaksIdempotence()
    ensures Patch(Key + "a", "b\nc") == Key + "b\nc"
    ensures Patch(Patch(Key + "a", "b\nc"), "b\nc") == Key + "b\nc\nc"
  {
    var url := "b\nc";
    SplitLines();
    PatchLeadingKeyLine("a", [], url);
    PatchLeadingKeyLine("b", "\nc", url);
  }

  lemma SplitLines()
    ensures Key + "a" == Key + "a" + []
    ensures Key + "b\nc" + [] == Key + "b\nc"
    ensures Key + "b\nc" == Key + "b" + "\nc"
    ensures Key + "b\nc" + "\nc" == Key + "b\nc\nc"
    ensures '$' !in "b\nc" && NoLineTerminator("a") && NoLineTerminator("b") && IsLineTerminator("\nc"[0])
  {
    assert Key + "b\nc" == Key + "b" + "\nc";
  }

  /** A `url` with `$$` is written with a single `$`, so the check after the
      patch, which looks for the raw `url`, fails. */
  lemma DollarInUrlFailsVerification()
    ensures Patch(Key + "a", "$$") == Key + "$"
    ensures !Verified(Patch(Key + "a", "$$"), "$$")
  {
    var s, url := Key + "a", "$$";
    SplitLines();
    LeadingKeyLine("a", []);
    PatchExpandsTemplate(s, url, 0);
    DollarDollar(s[0..|s|], s[..0], s[|s|..]);
    WholeSlices(s, Key + "$");
    assert |Key + url| == |Key + "$"| + 1;
  }

  lemma DollarDollar(matched: string, before: string, after: string)
    ensures Expand("$$", matched, before, after) == "$"
  {
    assert "$$"[2..] == [];
  }

  lemma WholeSlices(s: string, t: string)
    ensures s[..0] + t + s[|s|..] == t
  {
  }
}
