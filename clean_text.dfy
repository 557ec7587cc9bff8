/**
 * `clean_text` and `batch_clean_text` (ml/preprocess.py, with an identical copy in
 * ml/inference_worker.py): HTML unescaping, tag removal, a character whitelist, whitespace
 * collapsing and stripping.
 */
module CleanText {
  import opened Wrappers

  // ---------------------------------------------------------------------------
  // Character classes of Python's `re` on `str` patterns
  // ---------------------------------------------------------------------------

  /** `\s`: the characters for which `str.isspace()` holds. */
  predicate IsSpace(c: char) {
    var n := c as int;
    || 0x09 <= n <= 0x0D || 0x1C <= n <= 0x20 || n == 0x85 || n == 0xA0 || n == 0x1680
    || 0x2000 <= n <= 0x200A || n == 0x2028 || n == 0x2029 || n == 0x202F || n == 0x205F || n == 0x3000
  }

  /** `\w`, restricted to ASCII letters and digits, `_` and the Cyrillic letters. */
  predicate IsWordChar(c: char) {
    || 'a' <= c <= 'z' || 'A' <= c <= 'Z' || '0' <= c <= '9' || c == '_'
    || ('Ѐ' <= c <= 'ҁ') || ('Ҋ' <= c <= 'ӿ')
  }

  /** The punctuation the whitelist keeps: `.,!?;:()"'-`. */
  predicate IsKeptPunctuation(c: char) {
    c in ".,!?;:()\"'-"
  }

  /** A character the whitelist `[\w\s.,!?;:()"'-]` lets through unchanged. */
  predicate Allowed(c: char) {
    IsWordChar(c) || IsSpace(c) || IsKeptPunctuation(c)
  }

  lemma MarkupNotAllowed(c: char)
    requires c == '<' || c == '>' || c == '&'
    ensures !Allowed(c)
  {
  }

  // ---------------------------------------------------------------------------
  // Step 1: `html.unescape`
  // ---------------------------------------------------------------------------

  /** The named references this model decodes, each with its `;`: the character and the reference's length. */
  function NamedRef(s: string): (r: Option<(char, nat)>)
    ensures r.Some? ==> 2 <= r.value.1 <= |s| && s[0] == '&'
  {
    if |s| >= 5 && s[..5] == "&amp;" then Some(('&', 5))
    else if |s| >= 4 && s[..4] == "&lt;" then Some(('<', 4))
    else if |s| >= 4 && s[..4] == "&gt;" then Some(('>', 4))
    else if |s| >= 6 && s[..6] == "&quot;" then Some(('"', 6))
    else if |s| >= 6 && s[..6] == "&apos;" then Some(('\'', 6))
    else if |s| >= 5 && s[..5] == "&#39;" then Some(('\'', 5))
    else if |s| >= 6 && s[..6] == "&nbsp;" then Some(('\U{00A0}', 6))
    else None
  }

  /** Left to right, each recognised reference is replaced by its character; anything else is kept. */
  function Unescape(s: string): (t: string)
    ensures |t| <= |s|
    decreases |s|
  {
    if s == [] then []
    else if s[0] == '&' && NamedRef(s).Some? then
      [NamedRef(s).value.0] + Unescape(s[NamedRef(s).value.1..])
    else [s[0]] + Unescape(s[1..])
  }

  /** Text without `&` holds no reference, so unescaping leaves it alone. */
  lemma {:induction false} UnescapeWithoutAmpersand(s: string)
    requires '&' !in s
    ensures Unescape(s) == s
  {
    if s != [] {
      UnescapeWithoutAmpersand(s[1..]);
      assert s == [s[0]] + s[1..];
    }
  }

  // ---------------------------------------------------------------------------
  // Step 2: `re.sub(r"<[^>]+>", " ", text)`
  // ---------------------------------------------------------------------------

  /** The first `>` at or after `i`. */
  function FindGt(s: string, i: nat): (j: Option<nat>)
    requires i <= |s|
    ensures j.Some? ==> i <= j.value < |s| && s[j.value] == '>' && '>' !in s[i..j.value]
    ensures j.None? ==> '>' !in s[i..]
    decreases |s| - i
  {
    if i == |s| then None
    else if s[i] == '>' then Some(i)
    else
      var j := FindGt(s, i + 1);
      assert s[i..] == [s[i]] + s[i + 1..];
      if j.Some? then
        assert s[i..j.value] == [s[i]] + s[i + 1..j.value];
        j
      else j
  }

  /** No `<`, at least one non-`>` character, `>`: no substring of `t` matches the tag pattern. */
  predicate TagFree(t: string) {
    forall i :: 0 <= i < |t| && t[i] == '<' ==> (i + 1 < |t| && t[i + 1] == '>') || '>' !in t[i + 1..]
  }

  /** Every character of `t` is a space or a character of `s`. */
  predicate Drawn(t: string, s: string) {
    forall k :: 0 <= k < |t| ==> t[k] == ' ' || t[k] in s
  }

  lemma DrawnCons(c: char, rest: string, r: string, s: string)
    requires Drawn(rest, r) && (forall x :: x in r ==> x in s)
    requires c == ' ' || c in s
    ensures Drawn([c] + rest, s)
  {
    var t := [c] + rest;
    forall k | 0 <= k < |t| ensures t[k] == ' ' || t[k] in s {
      if k > 0 {
        assert t[k] == rest[k - 1];
      }
    }
  }

  /** A character in front of a tag-free text keeps it tag-free unless it opens a tag there. */
  lemma TagFreeCons(c: char, rest: string)
    requires TagFree(rest)
    requires c == '<' ==> (|rest| > 0 && rest[0] == '>') || '>' !in rest
    ensures TagFree([c] + rest)
  {
    var t := [c] + rest;
    forall i | 0 <= i < |t| && t[i] == '<'
      ensures (i + 1 < |t| && t[i + 1] == '>') || '>' !in t[i + 1..]
    {
      if i == 0 {
        assert t[1..] == rest;
      } else {
        assert t[i + 1..] == rest[i..];
        assert rest[i - 1] == '<';
      }
    }
  }

  /** The tag removal: scanning left to right, each `<`, one or more non-`>` characters and the next `>` become one space. */
  function StripTags(s: string): (t: string)
    ensures TagFree(t) && Drawn(t, s)
    ensures '>' in t ==> '>' in s
    ensures '<' in t ==> '<' in s
    ensures |s| > 0 && s[0] != '<' ==> |t| > 0 && t[0] == s[0]
    decreases |s|
  {
    if s == [] then []
    else
      var close := FindGt(s, 1);
      if s[0] == '<' && close.Some? && close.value >= 2 then
        var r := s[close.value + 1..];
        var rest := StripTags(r);
        DrawnCons(' ', rest, r, s);
        TagFreeCons(' ', rest);
        [' '] + rest
      else
        var rest := StripTags(s[1..]);
        DrawnCons(s[0], rest, s[1..], s);
        assert s[0] == '<' ==> (|s| > 1 && s[1] == '>') || '>' !in s[1..];
        TagFreeCons(s[0], rest);
        [s[0]] + rest
  }

  lemma {:induction false} StripTagsWithoutTags(s: string)
    requires '<' !in s
    ensures StripTags(s) == s
  {
    if s != [] {
      StripTagsWithoutTags(s[1..]);
      assert s == [s[0]] + s[1..];
    }
  }

  // ---------------------------------------------------------------------------
  // Step 3: `re.sub(r"[^\w\s.,!?;:()\"'-]", " ", text)`
  // ---------------------------------------------------------------------------

  function Whitelist(s: string): (t: string)
    ensures |t| == |s|
    ensures forall k :: 0 <= k < |s| ==> t[k] == (if Allowed(s[k]) then s[k] else ' ')
  {
    seq(|s|, k requires 0 <= k < |s| => if Allowed(s[k]) then s[k] else ' ')
  }

  /** Every character of the whitelist's output is allowed. */
  lemma WhitelistOutputAllowed(s: string)
    ensures forall k :: 0 <= k < |Whitelist(s)| ==> Allowed(Whitelist(s)[k])
  {
  }

  lemma WhitelistIdentity(s: string)
    requires forall k :: 0 <= k < |s| ==> Allowed(s[k])
    ensures Whitelist(s) == s
  {
  }

  // ---------------------------------------------------------------------------
  // Steps 4 and 5: `re.sub(r"\s+", " ", text)` and `str.strip()`
  // ---------------------------------------------------------------------------

  /** `s` without its leading whitespace. */
  function DropSpaces(s: string): (t: string)
    ensures |t| <= |s|
    ensures t == s[|s| - |t|..]
    ensures t == [] || !IsSpace(t[0])
  {
    if s != [] && IsSpace(s[0]) then DropSpaces(s[1..]) else s
  }

  /** A space-normalised text: `' '` is its only whitespace and never appears twice in a row. */
  predicate SpaceNormal(t: string) {
    && (forall k :: 0 <= k < |t| && IsSpace(t[k]) ==> t[k] == ' ')
    && (forall k :: 0 <= k < |t| - 1 ==> !(t[k] == ' ' && t[k + 1] == ' '))
  }

  /** Every character of `t` is a space or a non-space character of `s`. */
  predicate FromText(t: string, s: string) {
    forall k :: 0 <= k < |t| ==> t[k] == ' ' || (t[k] in s && !IsSpace(t[k]))
  }

  /** Prepending one character to a collapsed tail keeps it space-normal and drawn from the text. */
  lemma CollapseCons(c: char, tail: string, r: string, s: string)
    requires SpaceNormal(tail) && FromText(tail, r)
    requires forall x :: x in r ==> x in s
    requires c == ' ' || (c in s && !IsSpace(c))
    requires c == ' ' ==> tail == [] || tail[0] != ' '
    ensures SpaceNormal([c] + tail) && FromText([c] + tail, s)
  {
    var t := [c] + tail;
    forall k | 0 <= k < |t| - 1 ensures !(t[k] == ' ' && t[k + 1] == ' ') {
      if k > 0 {
        assert t[k] == tail[k - 1] && t[k + 1] == tail[k];
      }
    }
  }

  /** Each maximal whitespace run becomes one space. */
  function Collapse(s: string): (t: string)
    ensures SpaceNormal(t) && FromText(t, s)
    ensures |t| == 0 <==> |s| == 0
    ensures |s| > 0 ==> (t[0] == ' ' <==> IsSpace(s[0]))
    ensures |s| > 0 && !IsSpace(s[0]) ==> t[0] == s[0]
    decreases |s|
  {
    if s == [] then []
    else if IsSpace(s[0]) then
      var rest := DropSpaces(s[1..]);
      var tail := Collapse(rest);
      CollapseCons(' ', tail, rest, s);
      [' '] + tail
    else
      var tail := Collapse(s[1..]);
      CollapseCons(s[0], tail, s[1..], s);
      [s[0]] + tail
  }

  lemma {:induction false} CollapseIdentity(s: string)
    requires SpaceNormal(s)
    ensures Collapse(s) == s
  {
    if s != [] {
      var tail := s[1..];
      assert SpaceNormal(tail) by {
        forall k | 0 <= k < |tail| - 1 ensures !(tail[k] == ' ' && tail[k + 1] == ' ') {
          assert tail[k] == s[k + 1] && tail[k + 1] == s[k + 2];
        }
        forall k | 0 <= k < |tail| && IsSpace(tail[k]) ensures tail[k] == ' ' {
          assert tail[k] == s[k + 1];
        }
      }
      CollapseIdentity(tail);
      if IsSpace(s[0]) {
        NoSpaceAfterSpace(s);
        assert DropSpaces(tail) == tail;
      }
      assert s == [s[0]] + tail;
    }
  }

  lemma NoSpaceAfterSpace(s: string)
    requires SpaceNormal(s) && |s| > 0 && IsSpace(s[0])
    ensures |s| == 1 || !IsSpace(s[1])
  {
    if |s| > 1 {
      assert s[0] == ' ';
      assert !(s[0] == ' ' && s[1] == ' ');
    }
  }

  /** `str.strip()`: the text without leading and trailing whitespace. */
  function Strip(s: string): (t: string)
    ensures exists a, b :: 0 <= a <= b <= |s| && t == s[a..b]
    ensures t == [] || (!IsSpace(t[0]) && !IsSpace(t[|t| - 1]))
    ensures (forall k :: 0 <= k < |s| ==> IsSpace(s[k])) ==> t == []
  {
    var left := DropSpaces(s);
    var t := DropTrailingSpaces(left);
    var a := |s| - |left|;
    assert t == left[..|t|] == s[a..][..|t|] == s[a..a + |t|];
    t
  }

  /** `s` without its trailing whitespace. */
  function DropTrailingSpaces(s: string): (t: string)
    ensures |t| <= |s| && t == s[..|t|]
    ensures t == [] || !IsSpace(t[|t| - 1])
    ensures (forall k :: 0 <= k < |s| ==> IsSpace(s[k])) ==> t == []
  {
    if s != [] && IsSpace(s[|s| - 1]) then DropTrailingSpaces(s[..|s| - 1]) else s
  }

  lemma StripIdentity(s: string)
    requires s == [] || (!IsSpace(s[0]) && !IsSpace(s[|s| - 1]))
    ensures Strip(s) == s
  {
  }

  // ---------------------------------------------------------------------------
  // `clean_text`
  // ---------------------------------------------------------------------------

  function Clean(s: string): string {
    Strip(Collapse(Whitelist(StripTags(Unescape(s)))))
  }

  /** The shape of every cleaned text. */
  predicate CleanShape(t: string) {
    && (forall k :: 0 <= k < |t| ==> Allowed(t[k]))
    && SpaceNormal(t)
    && (t == [] || (t[0] != ' ' && t[|t| - 1] != ' '))
  }

  /**
   * The output keeps only whitelisted characters (so no `<`, `>` or `&`), has `' '` as its only
   * whitespace, never two spaces in a row, and no space at either end.
   */
  lemma CleanOutputShape(s: string)
    ensures CleanShape(Clean(s))
    ensures '<' !in Clean(s) && '>' !in Clean(s) && '&' !in Clean(s)
  {
    var w := Whitelist(StripTags(Unescape(s)));
    WhitelistOutputAllowed(StripTags(Unescape(s)));
    CollapseKeepsAllowed(w);
    StripKeepsShape(Collapse(w));
    var t := Clean(s);
    MarkupNotAllowed('<');
    MarkupNotAllowed('>');
    MarkupNotAllowed('&');
    assert forall c :: c in t ==> Allowed(c);
  }

  lemma CollapseKeepsAllowed(w: string)
    requires forall k :: 0 <= k < |w| ==> Allowed(w[k])
    ensures forall k :: 0 <= k < |Collapse(w)| ==> Allowed(Collapse(w)[k])
  {
    var c := Collapse(w);
    forall k | 0 <= k < |c| ensures Allowed(c[k]) {
      if c[k] != ' ' {
        var m :| 0 <= m < |w| && w[m] == c[k];
      }
    }
  }

  /** A slice of a space-normal text of allowed characters is one too. */
  lemma SliceKeepsShape(c: string, a: nat, b: nat)
    requires a <= b <= |c|
    requires forall k :: 0 <= k < |c| ==> Allowed(c[k])
    requires SpaceNormal(c)
    ensures forall k :: 0 <= k < b - a ==> Allowed(c[a..b][k])
    ensures SpaceNormal(c[a..b])
  {
    var t := c[a..b];
    forall k | 0 <= k < |t| ensures Allowed(t[k]) && (IsSpace(t[k]) ==> t[k] == ' ') {
      assert t[k] == c[a + k];
    }
    forall k | 0 <= k < |t| - 1 ensures !(t[k] == ' ' && t[k + 1] == ' ') {
      assert t[k] == c[a + k] && t[k + 1] == c[a + k + 1];
    }
  }

  /** Stripping a space-normal text of allowed characters gives the clean shape. */
  lemma StripKeepsShape(c: string)
    requires forall k :: 0 <= k < |c| ==> Allowed(c[k])
    requires SpaceNormal(c)
    ensures CleanShape(Strip(c))
  {
    var t := Strip(c);
    var a, b :| 0 <= a <= b <= |c| && t == c[a..b];
    SliceKeepsShape(c, a, b);
  }

  /** Cleaning is idempotent: a cleaned text passes through every step unchanged. */
  lemma CleanIdempotent(s: string)
    ensures Clean(Clean(s)) == Clean(s)
  {
    var t := Clean(s);
    CleanOutputShape(s);
    UnescapeWithoutAmpersand(t);
    StripTagsWithoutTags(t);
    WhitelistIdentity(t);
    CollapseIdentity(t);
    StripIdentity(t);
  }

  /** `batch_clean_text`: the same list, in order, each text cleaned. */
  function BatchClean(texts: seq<string>): (out: seq<string>)
    ensures |out| == |texts|
    ensures forall i :: 0 <= i < |texts| ==> out[i] == Clean(texts[i])
  {
    seq(|texts|, i requires 0 <= i < |texts| => Clean(texts[i]))
  }

  /** Cleaning a batch twice is cleaning it once, and every cleaned text has the clean shape. */
  lemma BatchCleanIdempotent(texts: seq<string>)
    ensures BatchClean(BatchClean(texts)) == BatchClean(texts)
    ensures forall i :: 0 <= i < |texts| ==> CleanShape(BatchClean(texts)[i])
  {
    forall i | 0 <= i < |texts| ensures Clean(Clean(texts[i])) == Clean(texts[i]) && CleanShape(Clean(texts[i])) {
      CleanIdempotent(texts[i]);
      CleanOutputShape(texts[i]);
    }
  }
}
