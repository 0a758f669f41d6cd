/**
 * The comparison helpers of server/src/compare.rs: the string escaping used
 * before text is embedded in a page, and the mapping of a word diff between the
 * session transcript (old side) and the reference translation (new side) to the
 * change records sent to the client.  The diff algorithm itself is a library
 * and appears here only as its output, a list of tagged text spans.
 */
module Compare {
  import opened Util

  // ------------------------------------------------------------------- escape

  /** `s.replace(from, to)` for a single-character pattern: every occurrence is replaced. */
  function Replace(s: string, from: char, to: string): (r: string)
    ensures from !in s ==> r == s
    decreases |s|
  {
    if s == [] then []
    else (if s[0] == from then to else [s[0]]) + Replace(s[1..], from, to)
  }

  /** `escape`: three replacements applied one after another. */
  function Escape(s: string): string {
    Replace(Replace(Replace(s, '\'', "\\'"), '\n', "\\\n"), '"', "\\\"")
  }

  /** The characters `escape` rewrites. */
  predicate IsSpecial(c: char) {
    c == '\'' || c == '\n' || c == '"'
  }

  /** Reference definition: a backslash before each special character, every other character kept. */
  function EscapeChar(c: char): string {
    if IsSpecial(c) then ['\\', c] else [c]
  }

  function EscapeEach(s: string): string
    decreases |s|
  {
    if s == [] then [] else EscapeChar(s[0]) + EscapeEach(s[1..])
  }

  function SpecialCount(s: string): nat
    decreases |s|
  {
    if s == [] then 0 else (if IsSpecial(s[0]) then 1 else 0) + SpecialCount(s[1..])
  }

  /** Reads an escaped string back: a backslash directly before a special character is dropped. */
  function Unescape(r: string): string
    decreases |r|
  {
    if r == [] then []
    else if |r| >= 2 && r[0] == '\\' && IsSpecial(r[1]) then [r[1]] + Unescape(r[2..])
    else [r[0]] + Unescape(r[1..])
  }

  /** A global single-character replacement distributes over concatenation. */
  lemma {:induction false} ReplaceAppend(a: string, b: string, from: char, to: string)
    ensures Replace(a + b, from, to) == Replace(a, from, to) + Replace(b, from, to)
    decreases |a|
  {
    if a == [] {
      assert a + b == b;
    } else {
      assert (a + b)[0] == a[0];
      assert (a + b)[1..] == a[1..] + b;
      ReplaceAppend(a[1..], b, from, to);
    }
  }

  lemma ReplaceSingle(c: char, from: char, to: string)
    ensures Replace([c], from, to) == if c == from then to else [c]
  {
    assert [c][1..] == [];
  }

  /** `escape(a ++ b) == escape(a) ++ escape(b)`. */
  lemma EscapeAppend(a: string, b: string)
    ensures Escape(a + b) == Escape(a) + Escape(b)
  {
    var a1, b1 := Replace(a, '\'', "\\'"), Replace(b, '\'', "\\'");
    ReplaceAppend(a, b, '\'', "\\'");
    var a2, b2 := Replace(a1, '\n', "\\\n"), Replace(b1, '\n', "\\\n");
    ReplaceAppend(a1, b1, '\n', "\\\n");
    ReplaceAppend(a2, b2, '"', "\\\"");
  }

  lemma EscapeOne(c: char)
    ensures Escape([c]) == EscapeChar(c)
  {
    ReplaceSingle(c, '\'', "\\'");
    if c != '\'' {
      ReplaceSingle(c, '\n', "\\\n");
      if c != '\n' {
        ReplaceSingle(c, '"', "\\\"");
      }
    }
  }

  /**
   * The chained replacements agree with one left-to-right pass: no replacement
   * rewrites what an earlier one inserted.
   */
  lemma {:induction false} EscapeIsPerCharacter(s: string)
    ensures Escape(s) == EscapeEach(s)
    decreases |s|
  {
    if s != [] {
      assert s == [s[0]] + s[1..];
      EscapeAppend([s[0]], s[1..]);
      EscapeOne(s[0]);
      EscapeIsPerCharacter(s[1..]);
    }
  }

  /** `escape` adds exactly one character per `'`, newline or `"`. */
  lemma {:induction false} EscapeLength(s: string)
    ensures |Escape(s)| == |s| + SpecialCount(s)
  {
    EscapeIsPerCharacter(s);
    EscapeEachLength(s);
  }

  lemma {:induction false} EscapeEachLength(s: string)
    ensures |EscapeEach(s)| == |s| + SpecialCount(s)
    decreases |s|
  {
    if s != [] {
      EscapeEachLength(s[1..]);
    }
  }

  /** Without `'`, newline or `"`, `escape` changes nothing. */
  lemma {:induction false} EscapeIdentity(s: string)
    requires forall i :: 0 <= i < |s| ==> !IsSpecial(s[i])
    ensures Escape(s) == s
  {
    EscapeIsPerCharacter(s);
    EscapeEachIdentity(s);
  }

  lemma {:induction false} EscapeEachIdentity(s: string)
    requires forall i :: 0 <= i < |s| ==> !IsSpecial(s[i])
    ensures EscapeEach(s) == s
    decreases |s|
  {
    if s != [] {
      assert !IsSpecial(s[0]);
      EscapeEachIdentity(s[1..]);
      assert s == [s[0]] + s[1..];
    }
  }

  /** An escaped non-empty string never starts with a special character. */
  lemma EscapeEachHead(s: string)
    requires s != []
    ensures EscapeEach(s) != [] && !IsSpecial(EscapeEach(s)[0])
  {
  }

  /** `escape` loses no information: the escaped text reads back to the original. */
  lemma {:induction false} UnescapeEscape(s: string)
    ensures Unescape(Escape(s)) == s
  {
    EscapeIsPerCharacter(s);
    UnescapeEscapeEach(s);
  }

  lemma {:induction false} UnescapeEscapeEach(s: string)
    ensures Unescape(EscapeEach(s)) == s
    decreases |s|
  {
    if s != [] {
      var c, rest := s[0], EscapeEach(s[1..]);
      var r := EscapeEach(s);
      assert r == EscapeChar(c) + rest;
      UnescapeEscapeEach(s[1..]);
      if IsSpecial(c) {
        assert r[2..] == rest;
      } else if rest == [] {
        assert r == [c];
      } else {
        EscapeEachHead(s[1..]);
        assert r[1] == rest[0];
        assert r[1..] == rest;
      }
      assert s == [c] + s[1..];
    }
  }

  // ------------------------------------------------------------------ changes

  /** The diff library's tag of a span. */
  datatype ChangeTag = Equal | Delete | Insert

  /** One change of the word diff: a span and its tag. */
  datatype DiffChange = DiffChange(tag: ChangeTag, value: string)

  /** The record sent to the client. */
  datatype Change = Change(changeType: string, content: string)

  function TagName(tag: ChangeTag): string {
    match tag
    case Equal => "equal"
    case Delete => "delete"
    case Insert => "insert"
  }

  /** How a reader of `changeType` recovers the tag. */
  function ParseTag(name: string): Option<ChangeTag> {
    if name == "equal" then Some(Equal)
    else if name == "delete" then Some(Delete)
    else if name == "insert" then Some(Insert)
    else None
  }

  /**
   * The mapping in `changes`: one change record per diff change, in order, its
   * type one of "equal", "delete", "insert" naming the tag, its content the span
   * unchanged.
   */
  function Changes(diff: seq<DiffChange>): (r: seq<Change>)
    ensures |r| == |diff|
    ensures forall i :: 0 <= i < |r| ==>
      && r[i].changeType in {"equal", "delete", "insert"}
      && ParseTag(r[i].changeType) == Some(diff[i].tag)
      && r[i].content == diff[i].value
  {
    seq(|diff|, i requires 0 <= i < |diff| => Change(TagName(diff[i].tag), diff[i].value))
  }

  /** The text the diff was computed from: equal and deleted spans, in order. */
  function OldText(diff: seq<DiffChange>): string
    decreases |diff|
  {
    if diff == [] then [] else (if diff[0].tag == Insert then [] else diff[0].value) + OldText(diff[1..])
  }

  /** The text the diff was computed to: equal and inserted spans, in order. */
  function NewText(diff: seq<DiffChange>): string
    decreases |diff|
  {
    if diff == [] then [] else (if diff[0].tag == Delete then [] else diff[0].value) + NewText(diff[1..])
  }

  /** The contents of the change records whose type is not `omitted`, concatenated in order. */
  function TextWithout(changes: seq<Change>, omitted: string): string
    decreases |changes|
  {
    if changes == [] then []
    else (if changes[0].changeType == omitted then [] else changes[0].content) + TextWithout(changes[1..], omitted)
  }

  /**
   * With the transcript as the old side and the reference as the new side, the
   * records other than "insert" spell the transcript and the records other than
   * "delete" spell the reference: "delete" marks transcript-only text and
   * "insert" reference-only text.
   */
  lemma {:induction false} ChangesSpellBothTexts(diff: seq<DiffChange>, transcript: string, reference: string)
    requires OldText(diff) == transcript && NewText(diff) == reference
    ensures TextWithout(Changes(diff), "insert") == transcript
    ensures TextWithout(Changes(diff), "delete") == reference
    decreases |diff|
  {
    if diff != [] {
      var c, rest := Changes(diff), diff[1..];
      assert c[1..] == Changes(rest);
      ChangesSpellBothTexts(rest, OldText(rest), NewText(rest));
    }
  }
}
