/** `sanitizeProjectName` of packages/proxy/src/project-name.ts. */
module ProjectName {
  import opened Wrappers

  const MAX_LEN := 64

  const MARKERS := ["is a git repository", "is directory a git repo", "platform", "shell", "today's date", "model"]

  /** JavaScript's `\s`, which `trim` also strips. */
  predicate IsSpace(c: char) {
    || '\t' <= c <= '\r' || c == ' ' || c == '\U{A0}' || c == '\U{1680}' || '\U{2000}' <= c <= '\U{200A}'
    || c == '\U{2028}' || c == '\U{2029}' || c == '\U{202F}' || c == '\U{205F}' || c == '\U{3000}' || c == '\U{FEFF}'
  }

  predicate IsControl(c: char) {
    c <= '\U{1F}' || c == '\U{7F}'
  }

  predicate IsWordChar(c: char) {
    'a' <= c <= 'z' || 'A' <= c <= 'Z' || '0' <= c <= '9' || c == '_'
  }

  /** What `.` does not match. */
  predicate IsLineEnd(c: char) {
    c == '\n' || c == '\r' || c == '\U{2028}' || c == '\U{2029}'
  }

  predicate IsTail(c: char) {
    IsSpace(c) || c == ':' || c == ';' || c == ',' || c == '-'
  }

  function Lower(c: char): char {
    if 'A' <= c <= 'Z' then (c as int + 32) as char else c
  }

  function StripControls(s: string): (r: string)
    ensures |r| <= |s| && (|r| == |s| ==> r == s)
  {
    if s == "" then ""
    else if IsControl(s[0]) then StripControls(s[1..])
    else [s[0]] + StripControls(s[1..])
  }

  function TrimStart(s: string): (r: string)
    ensures |r| <= |s| && (|r| == |s| ==> r == s)
  {
    if s != "" && IsSpace(s[0]) then TrimStart(s[1..]) else s
  }

  function TrimEnd(s: string): (r: string)
    ensures |r| <= |s| && (|r| == |s| ==> r == s)
  {
    if s != "" && IsSpace(s[|s| - 1]) then TrimEnd(s[..|s| - 1]) else s
  }

  function Trim(s: string): (r: string)
    ensures |r| <= |s| && (|r| == |s| ==> r == s)
  {
    TrimEnd(TrimStart(s))
  }

  function StripTail(s: string): (r: string)
    ensures |r| <= |s| && (|r| == |s| ==> r == s)
  {
    if s != "" && IsTail(s[|s| - 1]) then StripTail(s[..|s| - 1]) else s
  }

  predicate StartsWith(s: string, marker: string) {
    |marker| <= |s| && forall i :: 0 <= i < |marker| ==> Lower(s[i]) == marker[i]
  }

  /** A marker word, then a word boundary, then anything up to the end of a single line. */
  predicate MarkerAt(s: string, marker: string) {
    && StartsWith(s, marker)
    && (|s| > |marker| ==> !IsWordChar(s[|marker|]))
    && forall i :: |marker| <= i < |s| ==> !IsLineEnd(s[i])
  }

  predicate AnyMarkerAt(s: string) {
    exists m :: 0 <= m < |MARKERS| && MarkerAt(s, MARKERS[m])
  }

  /** The environment block starts here: spaces, at most one dash, spaces, and a marker. */
  predicate BlockAt(s: string) {
    var t := TrimStart(s);
    AnyMarkerAt(if t != "" && t[0] == '-' then TrimStart(t[1..]) else t)
  }

  /** The text before the leftmost environment block. */
  function CutBlock(s: string): (r: string)
    ensures |r| <= |s| && (|r| == |s| ==> r == s)
  {
    if s == "" || BlockAt(s) then "" else [s[0]] + CutBlock(s[1..])
  }

  function Clean(raw: string): (r: string)
    ensures |r| <= |raw| && (|r| == |raw| ==> r == raw)
  {
    Trim(StripTail(CutBlock(Trim(StripControls(raw)))))
  }

  function Sanitize(raw: string): (r: Option<string>)
  {
    var cleaned := Clean(raw);
    if raw == "" || cleaned == "" then None
    else if |cleaned| > MAX_LEN then Some(cleaned[..MAX_LEN])
    else Some(cleaned)
  }

  /** A name that changes gets shorter, so no chain of repairs comes back to a name it left. */
  lemma SanitizeShrinks(raw: string)
    requires Sanitize(raw).Some?
    ensures var r := Sanitize(raw).value;
            r != "" && |r| <= MAX_LEN && |r| <= |raw| && (r != raw ==> |r| < |raw|)
  {
  }

  lemma WordsStay(s: string)
    requires s != "" && !IsSpace(s[0]) && !IsSpace(s[|s| - 1]) && !IsTail(s[|s| - 1])
    ensures Trim(s) == s && StripTail(s) == s
  {
  }

  lemma ModelIsNothing()
    ensures Sanitize("Model") == None
  {
    var s := "Model";
    assert StripControls(s) == s by {
      assert s[1..] == "odel" && s[1..][1..] == "del" && s[1..][1..][1..] == "el" && s[1..][1..][1..][1..] == "l";
    }
    WordsStay(s);
    assert MarkerAt(s, MARKERS[5]);
    assert BlockAt(s);
  }

  /** Inside a word no environment block starts, unless a whole marker does. */
  lemma NoMarkerInWord(s: string)
    requires |s| >= 3 && Lower(s[0]) !in {'i', 'p', 's', 't', 'm', '-'} && !IsSpace(s[0])
    ensures !BlockAt(s)
  {
    assert forall m :: 0 <= m < |MARKERS| ==> Lower(MARKERS[m][0]) in {'i', 'p', 's', 't', 'm'};
  }

  lemma NoMarkerAtM(s: string)
    requires |s| > 5 && Lower(s[0]) == 'm' && !IsSpace(s[0]) && IsWordChar(s[5])
    ensures !BlockAt(s)
  {
    forall m | 0 <= m < |MARKERS|
      ensures !MarkerAt(s, MARKERS[m])
    {
      if m < 5 {
        assert Lower(MARKERS[m][0]) != 'm';
      }
    }
  }

  lemma NoBlockBefore(s: string, i: nat)
    requires s == "ModelModel" && i < 5
    ensures !BlockAt(s[i..])
  {
    hide BlockAt;
    var rest := s[i..];
    assert rest[0] == s[i];
    if i == 0 {
      NoMarkerAtM(rest);
    } else {
      assert s[i] in {'o', 'd', 'e', 'l'};
      NoMarkerInWord(rest);
    }
  }

  lemma ModelModelCuts(s: string)
    requires s == "ModelModel"
    ensures CutBlock(s) == "Model"
  {
    assert s[5..] == "Model" && BlockAt(s[5..]) by {
      assert MarkerAt(s[5..], MARKERS[5]);
    }
    forall i | 0 <= i < 5
      ensures !BlockAt(s[i..])
    {
      NoBlockBefore(s, i);
    }
    hide BlockAt;
    CutFrom(s, 5);
  }

  lemma ModelModelIsModel(s: string, model: string)
    requires s == "ModelModel" && model == "Model"
    ensures Sanitize(s) == Some(model)
  {
    LettersStay(s);
    WordsStay(s);
    ModelModelCuts(s);
    WordsStay(model);
  }

  /** Sanitizing is not idempotent: cutting a block can expose a name that is itself a marker. */
  lemma NotIdempotent(s: string)
    requires s == "ModelModel"
    ensures Sanitize(s).Some? && Sanitize(Sanitize(s).value) == None
  {
    ModelModelIsModel(s, "Model");
    ModelIsNothing();
  }

  predicate Letters(s: string) {
    forall i :: 0 <= i < |s| ==> ('a' <= s[i] <= 'z' || 'A' <= s[i] <= 'Z')
  }

  lemma {:induction false} LettersStay(s: string)
    requires Letters(s)
    ensures StripControls(s) == s
  {
    if s != "" {
      LettersStay(s[1..]);
    }
  }

  lemma NoBlockBehind(s: string, n: nat)
    requires 0 < n <= |s| && forall i :: 0 <= i < n ==> !BlockAt(s[i..])
    ensures forall i :: 0 <= i < n - 1 ==> !BlockAt(s[1..][i..])
  {
    hide BlockAt;
    forall i | 0 <= i < n - 1
      ensures !BlockAt(s[1..][i..])
    {
      assert s[1..][i..] == s[i + 1..];
    }
  }

  /** The cut is at the leftmost block. */
  lemma {:induction false} CutFrom(s: string, n: nat)
    requires n <= |s| && (n == |s| || BlockAt(s[n..])) && forall i :: 0 <= i < n ==> !BlockAt(s[i..])
    ensures CutBlock(s) == s[..n]
    decreases n
  {
    hide BlockAt;
    assert s[0..] == s;
    if n > 0 {
      NoBlockBehind(s, n);
      assert s[1..][n - 1..] == s[n..];
      CutFrom(s[1..], n - 1);
      assert CutBlock(s) == [s[0]] + s[1..][..n - 1];
      assert [s[0]] + s[1..][..n - 1] == s[..n];
    }
  }

  // What a sanitized name looks like

  /** The code points JavaScript takes for white space. */
  predicate IsWhite(c: char) {
    var n := c as int;
    || 9 <= n <= 13 || n in {32, 160, 5760, 8232, 8233, 8239, 8287, 12288, 65279} || 8192 <= n <= 8202
  }

  /** No control character: none below the space, nor the one after the tilde. */
  predicate Printable(s: string) {
    forall i :: 0 <= i < |s| ==> s[i] as int >= 32 && s[i] as int != 127
  }

  lemma SpaceIsWhite(c: char)
    ensures IsSpace(c) <==> IsWhite(c)
  {
  }

  lemma {:induction false} ControlsStripped(s: string)
    ensures Printable(StripControls(s))
    ensures Printable(s) ==> StripControls(s) == s
  {
    if s != "" {
      ControlsStripped(s[1..]);
    }
  }

  /** Trimming leaves a part of the text that neither starts nor ends with white space. */
  lemma {:induction false} TrimStartLeaves(s: string) returns (i: nat)
    ensures i <= |s| && TrimStart(s) == s[i..] && (i < |s| ==> !IsWhite(s[i]))
    ensures forall k :: 0 <= k < i ==> IsWhite(s[k])
  {
    i := 0;
    if s != "" {
      SpaceIsWhite(s[0]);
      if IsSpace(s[0]) {
        i := TrimStartLeaves(s[1..]);
        assert s[1..][i..] == s[i + 1..];
        assert forall k :: 0 < k < i + 1 ==> s[k] == s[1..][k - 1];
        i := i + 1;
      }
    }
  }

  lemma {:induction false} TrimEndLeaves(s: string) returns (j: nat)
    ensures j <= |s| && TrimEnd(s) == s[..j] && (j > 0 ==> !IsWhite(s[j - 1]))
  {
    j := |s|;
    if s != "" {
      SpaceIsWhite(s[|s| - 1]);
      if IsSpace(s[|s| - 1]) {
        j := TrimEndLeaves(s[..|s| - 1]);
      }
    }
  }

  lemma {:induction false} StripTailLeaves(s: string) returns (j: nat)
    ensures j <= |s| && StripTail(s) == s[..j]
    ensures j > 0 ==> !IsWhite(s[j - 1]) && s[j - 1] !in ":;,-"
  {
    j := |s|;
    if s != "" {
      SpaceIsWhite(s[|s| - 1]);
      if IsTail(s[|s| - 1]) {
        j := StripTailLeaves(s[..|s| - 1]);
      }
    }
  }

  /** The name before the length cap: printable, and it neither starts with white space nor ends with that or a separator. */
  predicate Tidy(s: string) {
    && Printable(s)
    && (s != "" ==> !IsWhite(s[0]) && !IsWhite(s[|s| - 1]) && s[|s| - 1] !in ":;,-")
  }

  lemma {:induction false} CutIsPrefix(s: string) returns (n: nat)
    ensures n <= |s| && CutBlock(s) == s[..n] && (n == |s| || BlockAt(s[n..]))
    ensures forall i :: 0 <= i < n ==> !BlockAt(s[i..])
  {
    hide BlockAt;
    n := 0;
    assert s[0..] == s;
    if s != "" && !BlockAt(s) {
      n := CutIsPrefix(s[1..]);
      assert s[..n + 1] == [s[0]] + s[1..][..n] && s[1..][n..] == s[n + 1..];
      forall i | 0 <= i < n + 1
        ensures !BlockAt(s[i..])
      {
        if i > 0 {
          assert s[1..][i - 1..] == s[i..];
        }
      }
      n := n + 1;
    }
  }

  lemma TrimLeaves(s: string) returns (i: nat, j: nat)
    ensures i <= j <= |s| && Trim(s) == s[i..j]
    ensures i < j ==> !IsWhite(s[i]) && !IsWhite(s[j - 1])
  {
    hide TrimStart, TrimEnd, IsWhite;
    i := TrimStartLeaves(s);
    var n := TrimEndLeaves(s[i..]);
    j := i + n;
    assert s[i..][..n] == s[i..j];
    if n > 0 {
      assert s[i..][n - 1] == s[j - 1];
    }
  }

  lemma CleanIsTidy(raw: string)
    ensures Tidy(Clean(raw))
  {
    hide StripControls, Trim, CutBlock, StripTail, IsWhite, Printable, Tidy;
    var a := StripControls(raw);
    ControlsStripped(raw);
    var i, j := TrimLeaves(a);
    var n := CutIsPrefix(Trim(a));
    var m := StripTailLeaves(CutBlock(Trim(a)));
    PieceTidy(a, i, j, n, m);
  }

  /** What is left of a printable text when it is trimmed, cut and stripped is tidy. */
  lemma PieceTidy(a: string, i: nat, j: nat, n: nat, m: nat)
    requires Printable(a) && i <= j <= |a| && m <= n <= j - i
    requires i < j ==> !IsWhite(a[i])
    requires m > 0 ==> !IsWhite(a[i..j][..n][m - 1]) && a[i..j][..n][m - 1] !in ":;,-"
    ensures Trim(a[i..j][..n][..m]) == a[i..j][..n][..m] && Tidy(a[i..j][..n][..m])
  {
    hide Trim, IsWhite, Tidy;
    TrimTidy(a[i..j], a[i..j][..n][..m]);
  }

  /** A part from the start of a trimmed text, itself stripped, stays as it is when trimmed. */
  lemma TrimTidy(b: string, e: string)
    requires Printable(b) && e <= b && (b != "" ==> !IsWhite(b[0]))
    requires e != "" ==> !IsWhite(e[|e| - 1]) && e[|e| - 1] !in ":;,-"
    ensures Trim(e) == e && Tidy(e)
  {
    if e != "" {
      SpaceIsWhite(e[0]);
      SpaceIsWhite(e[|e| - 1]);
    }
  }

  /**
   * A sanitized name holds no control character and does not start with white space; nor does it end with that or a
   * separator, unless the cap of 64 characters cut it there.
   */
  lemma SanitizedIsTidy(raw: string)
    requires Sanitize(raw).Some?
    ensures var r := Sanitize(raw).value;
            && Printable(r) && r != "" && |r| <= 64 && !IsWhite(r[0])
            && (IsWhite(r[|r| - 1]) || r[|r| - 1] in ":;,-"
                <==> |Clean(raw)| > 64 && (IsWhite(Clean(raw)[63]) || Clean(raw)[63] in ":;,-"))
  {
    CleanIsTidy(raw);
    hide Clean;
  }

  /** A tidy name with no environment block in it comes back as it is, up to its first 64 characters. */
  lemma TidyStays(s: string)
    requires s != "" && Tidy(s) && forall i :: 0 <= i < |s| ==> !BlockAt(s[i..])
    ensures Sanitize(s) == Some(if |s| > 64 then s[..64] else s)
  {
    hide BlockAt, IsWhite, CutBlock, Trim, StripControls, StripTail;
    ControlsStripped(s);
    TrimTidy(s, s);
    CutFrom(s, |s|);
    assert s[..|s|] == s;
    TailStays(s);
  }

  lemma TailStays(s: string)
    requires s != "" && !IsWhite(s[|s| - 1]) && s[|s| - 1] !in ":;,-"
    ensures StripTail(s) == s
  {
    SpaceIsWhite(s[|s| - 1]);
  }

  /**
   * An environment block: white space, at most one dash with more of it, and then a marker word that ends there, in any
   * case, with nothing but the rest of the line and of the text behind it.
   */
  predicate BlockWith(s: string, a: nat, b: nat, marker: string) {
    && a <= b <= |s| && (forall i :: 0 <= i < a ==> IsWhite(s[i]))
    && (a == b || (s[a] == '-' && forall i :: a < i < b ==> IsWhite(s[i])))
    && marker in {"is a git repository", "is directory a git repo", "platform", "shell", "today's date", "model"}
    && SpelledAt(s[b..], marker)
  }

  /** An ASCII letter, digit or underscore, by code point. */
  predicate IsWordCode(n: int) {
    48 <= n <= 57 || 65 <= n <= 90 || n == 95 || 97 <= n <= 122
  }

  /** The marker, small or capital letter by letter, as a whole word, and then no line end: 10, 13, 8232 or 8233. */
  predicate SpelledAt(t: string, marker: string) {
    && |marker| <= |t|
    && (forall i :: 0 <= i < |marker| ==>
          t[i] == marker[i] || (65 <= t[i] as int <= 90 && t[i] as int + 32 == marker[i] as int))
    && (|marker| < |t| ==> !IsWordCode(t[|marker|] as int))
    && forall i :: |marker| <= i < |t| ==> t[i] as int !in {10, 13, 8232, 8233}
  }

  lemma MarkerIsSpelled(t: string, marker: string)
    requires marker in MARKERS
    ensures MarkerAt(t, marker) <==> SpelledAt(t, marker)
  {
    MarkersSmall(marker);
    if |marker| <= |t| {
      forall i | 0 <= i < |marker|
        ensures Lower(t[i]) == marker[i]
           <==> t[i] == marker[i] || (65 <= t[i] as int <= 90 && t[i] as int + 32 == marker[i] as int)
      {
      }
    }
  }

  lemma MarkersSmall(marker: string)
    requires marker in MARKERS
    ensures forall i :: 0 <= i < |marker| ==> !('A' <= marker[i] <= 'Z')
  {
    MarkersAre(marker);
  }

  lemma MarkersAre(marker: string)
    ensures marker in MARKERS
       <==> marker in {"is a git repository", "is directory a git repo", "platform", "shell", "today's date", "model"}
    ensures marker in MARKERS ==> marker != "" && 'a' <= marker[0] <= 'z'
  {
    assert MARKERS[0] == "is a git repository" && MARKERS[1] == "is directory a git repo" && MARKERS[2] == "platform"
        && MARKERS[3] == "shell" && MARKERS[4] == "today's date" && MARKERS[5] == "model";
  }

  lemma MarkerFirst(t: string, marker: string)
    requires MarkerAt(t, marker) && marker in MARKERS
    ensures t != "" && !IsWhite(t[0]) && t[0] != '-'
  {
    MarkersAre(marker);
    assert Lower(t[0]) == marker[0];
  }

  /** Trimming stops at the first character that is not white space. */
  lemma TrimStartAt(s: string, a: nat)
    requires a < |s| && !IsWhite(s[a]) && forall i :: 0 <= i < a ==> IsWhite(s[i])
    ensures TrimStart(s) == s[a..]
  {
    hide TrimStart, IsWhite;
    var i := TrimStartLeaves(s);
    assert i == a;
  }

  /** A block starts just there. */
  lemma BlockIs(s: string)
    ensures BlockAt(s) <==> exists a, b, marker :: BlockWith(s, a, b, marker)
  {
    hide TrimStart, IsWhite, MarkerAt, SpelledAt;
    if BlockAt(s) {
      var a := TrimStartLeaves(s);
      var t := s[a..];
      var b := a;
      if t != "" && t[0] == '-' {
        var j := TrimStartLeaves(t[1..]);
        b := a + 1 + j;
        assert t[1..][j..] == s[b..];
        assert forall i :: a < i < b ==> s[i] == t[1..][i - a - 1];
      }
      var m :| 0 <= m < |MARKERS| && MarkerAt(s[b..], MARKERS[m]);
      MarkersAre(MARKERS[m]);
      MarkerIsSpelled(s[b..], MARKERS[m]);
      assert BlockWith(s, a, b, MARKERS[m]);
    }
    if a, b, marker :| BlockWith(s, a, b, marker) {
      BlockStarts(s, a, b, marker);
    }
  }

  lemma BlockStarts(s: string, a: nat, b: nat, marker: string)
    requires BlockWith(s, a, b, marker)
    ensures BlockAt(s)
  {
    hide TrimStart, MarkerAt, SpelledAt;
    MarkersAre(marker);
    MarkerIsSpelled(s[b..], marker);
    MarkerFirst(s[b..], marker);
    assert s[b] == s[b..][0];
    TrimStartAt(s, a);
    if a < b {
      var t := s[a..][1..];
      assert t[b - a - 1..] == s[b..];
      assert forall i :: 0 <= i < b - a - 1 ==> t[i] == s[a + 1 + i];
      TrimStartAt(t, b - a - 1);
    }
    var m :| 0 <= m < |MARKERS| && MARKERS[m] == marker;
  }

  lemma MarkersLong()
    ensures forall s, a, b, marker :: BlockWith(s, a, b, marker) ==> |s| >= 5
  {
  }

  lemma NoBlockAtB(s: string)
    requires s == " b" || s == "b"
    ensures !BlockAt(s)
  {
    MarkersLong();
    BlockIs(s);
  }

  /** The cap can leave a space at the end. */
  lemma CapLeavesSpace(s: string)
    requires |s| == 65 && (forall i :: 0 <= i < 63 ==> s[i] == 'a') && s[63] == ' ' && s[64] == 'b'
    ensures Sanitize(s) == Some(s[..64]) && s[..64][63] == ' '
  {
    forall i | 0 <= i < |s|
      ensures !BlockAt(s[i..])
    {
      if i < 63 {
        assert s[i..][0] == 'a';
        NoMarkerInWord(s[i..]);
      } else {
        assert s[63..] == " b" && s[64..] == "b";
        NoBlockAtB(s[i..]);
      }
    }
    hide BlockAt;
    TidyStays(s);
  }
}
