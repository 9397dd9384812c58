/**
 * The URL slug the project routes derive from a title (create and update handlers):
 * lower-case, drop every character outside `[a-z0-9\s-]`, turn each whitespace run into
 * `-`, squeeze each run of `-` into one, then `trim`.
 */
module ProjectSlug {
  import opened Text
  import opened Seqs

  /** The characters a slug can contain: `[a-z0-9-]`. */
  predicate IsSlugChar(c: char) {
    IsAsciiLower(c) || IsDigit(c) || c == '-'
  }

  /** The characters `/[^a-z0-9\s-]/g` leaves in place. */
  predicate Survives(c: char) {
    IsAsciiLower(c) || IsDigit(c) || IsWhitespace(c) || c == '-'
  }

  predicate NoWhitespace(s: string) {
    forall k :: 0 <= k < |s| ==> !IsWhitespace(s[k])
  }

  predicate NoDoubleDash(s: string) {
    forall k :: 0 <= k < |s| - 1 ==> !(s[k] == '-' && s[k + 1] == '-')
  }

  /** `.replace(/[^a-z0-9\s-]/g, '')`. */
  function StripDisallowed(s: string): (r: string)
    ensures forall k :: 0 <= k < |r| ==> Survives(r[k])
    ensures (forall k :: 0 <= k < |s| ==> Survives(s[k])) ==> r == s
    ensures SubsequenceOf(r, s)
    ensures forall k :: 0 <= k < |s| && Survives(s[k]) ==> multiset(r)[s[k]] == multiset(s)[s[k]]
  {
    FilterKeepsCounts(s, Survives);
    Filter(s, Survives)
  }

  /** `.replace(/\s+/g, '-')`; `inRun` says the character before `s` was whitespace. */
  function DashWhitespaceRuns(s: string, inRun: bool): (r: string)
    ensures NoWhitespace(r)
    ensures forall k :: 0 <= k < |r| ==> r[k] == '-' || r[k] in s
    ensures NoWhitespace(s) ==> r == s
  {
    if s == [] then []
    else if IsWhitespace(s[0]) then (if inRun then [] else ['-']) + DashWhitespaceRuns(s[1..], true)
    else [s[0]] + DashWhitespaceRuns(s[1..], false)
  }

  /** `.replace(/-+/g, '-')`; `inRun` says the character before `s` was `-`. */
  function SqueezeDashes(s: string, inRun: bool): (r: string)
    ensures NoDoubleDash(r)
    ensures inRun ==> r == [] || r[0] != '-'
    ensures forall k :: 0 <= k < |r| ==> r[k] in s
    ensures NoDoubleDash(s) && (inRun ==> s == [] || s[0] != '-') ==> r == s
  {
    if s == [] then []
    else if s[0] == '-' then (if inRun then [] else ['-']) + SqueezeDashes(s[1..], true)
    else [s[0]] + SqueezeDashes(s[1..], false)
  }

  /** `String.prototype.trimStart`. */
  function TrimStart(s: string): (r: string)
    ensures NoWhitespace(s) ==> r == s
  {
    if s != [] && IsWhitespace(s[0]) then TrimStart(s[1..]) else s
  }

  /** `String.prototype.trimEnd`. */
  function TrimEnd(s: string): (r: string)
    ensures NoWhitespace(s) ==> r == s
  {
    if s != [] && IsWhitespace(s[|s| - 1]) then TrimEnd(s[..|s| - 1]) else s
  }

  /** `String.prototype.trim`: drop the leading and the trailing whitespace. */
  function Trim(s: string): (r: string)
    ensures NoWhitespace(s) ==> r == s
    ensures r == [] || (!IsWhitespace(r[0]) && !IsWhitespace(r[|r| - 1]))
  {
    var t := TrimStart(s);
    TrimStartDropsLeadingWhitespace(s);
    TrimEndDropsTrailingWhitespace(t);
    var r := TrimEnd(t);
    assert r != [] ==> r[0] == t[0];
    r
  }

  /** `trimStart` drops the leading whitespace, and nothing else. */
  lemma {:induction false} TrimStartDropsLeadingWhitespace(s: string)
    ensures |TrimStart(s)| <= |s| && TrimStart(s) == s[|s| - |TrimStart(s)|..]
    ensures forall k :: 0 <= k < |s| - |TrimStart(s)| ==> IsWhitespace(s[k])
    ensures TrimStart(s) == [] || !IsWhitespace(TrimStart(s)[0])
  {
    if s != [] && IsWhitespace(s[0]) {
      TrimStartDropsLeadingWhitespace(s[1..]);
    }
  }

  /** `trimEnd` drops the trailing whitespace, and nothing else. */
  lemma {:induction false} TrimEndDropsTrailingWhitespace(s: string)
    ensures |TrimEnd(s)| <= |s| && TrimEnd(s) == s[..|TrimEnd(s)|]
    ensures forall k :: |TrimEnd(s)| <= k < |s| ==> IsWhitespace(s[k])
    ensures TrimEnd(s) == [] || !IsWhitespace(TrimEnd(s)[|TrimEnd(s)| - 1])
  {
    if s != [] && IsWhitespace(s[|s| - 1]) {
      TrimEndDropsTrailingWhitespace(s[..|s| - 1]);
    }
  }

  /**
   * What `trim` keeps is the slice of `s` between its leading and its trailing whitespace:
   * only whitespace is removed, and only at the ends.
   */
  lemma TrimIsSlice(s: string)
    ensures var start := |s| - |TrimStart(s)|;
      && 0 <= start && start + |Trim(s)| <= |s|
      && Trim(s) == s[start..start + |Trim(s)|]
      && (forall k :: 0 <= k < start ==> IsWhitespace(s[k]))
      && (forall k :: start + |Trim(s)| <= k < |s| ==> IsWhitespace(s[k]))
  {
    var t := TrimStart(s);
    var start := |s| - |t|;
    var r := TrimEnd(t);
    TrimStartDropsLeadingWhitespace(s);
    TrimEndDropsTrailingWhitespace(t);
    assert Trim(s) == r;
    assert r == s[start..start + |r|] by {
      assert r == t[..|r|] && t == s[start..];
    }
    forall k | start + |r| <= k < |s| ensures IsWhitespace(s[k]) {
      assert s[k] == t[k - start];
    }
  }

  /** The slug of a project title. */
  function Slug(title: string): (r: string)
    ensures forall k :: 0 <= k < |r| ==> IsSlugChar(r[k])
    ensures NoDoubleDash(r)
  {
    Trim(SqueezeDashes(DashWhitespaceRuns(StripDisallowed(Lower(title)), false), false))
  }

  /** The slug chain without its final `trim`. */
  function UntrimmedSlug(title: string): string {
    SqueezeDashes(DashWhitespaceRuns(StripDisallowed(Lower(title)), false), false)
  }

  /** Only `[a-z0-9-]` survives the first three steps. */
  lemma UntrimmedSlugChars(title: string)
    ensures forall k :: 0 <= k < |UntrimmedSlug(title)| ==> IsSlugChar(UntrimmedSlug(title)[k])
  {
    var stripped := StripDisallowed(Lower(title));
    var dashed := DashWhitespaceRuns(stripped, false);
    assert forall k :: 0 <= k < |dashed| ==> IsSlugChar(dashed[k]) by {
      forall k | 0 <= k < |dashed| ensures IsSlugChar(dashed[k]) {
        if dashed[k] != '-' {
          assert dashed[k] in stripped;
          var j :| 0 <= j < |stripped| && stripped[j] == dashed[k];
          assert Survives(stripped[j]);
        }
      }
    }
    var squeezed := SqueezeDashes(dashed, false);
    forall k | 0 <= k < |squeezed| ensures IsSlugChar(squeezed[k]) {
      assert squeezed[k] in dashed;
    }
  }

  /**
   * The final `.trim()` never changes anything: whitespace was already turned into `-`.
   * So a title with surrounding spaces gets a slug with a leading and a trailing `-`.
   */
  lemma TrimIsNoOp(title: string)
    ensures Slug(title) == UntrimmedSlug(title)
  {
    UntrimmedSlugChars(title);
    var u := UntrimmedSlug(title);
    assert NoWhitespace(u) by {
      forall k | 0 <= k < |u| ensures !IsWhitespace(u[k]) {
        assert IsSlugChar(u[k]);
      }
    }
  }

  /** Slugging a slug changes nothing. */
  lemma SlugIdempotent(title: string)
    ensures Slug(Slug(title)) == Slug(title)
  {
    var s := Slug(title);
    SlugCharsAreLower(s);
    SlugCharsSurvive(s);
    assert NoWhitespace(s) by {
      forall k | 0 <= k < |s| ensures !IsWhitespace(s[k]) {
        assert IsSlugChar(s[k]);
      }
    }
    assert DashWhitespaceRuns(s, false) == s;
    assert SqueezeDashes(s, false) == s;
  }

  /** Lower-casing leaves a string of slug characters alone. */
  lemma SlugCharsAreLower(s: string)
    requires forall k :: 0 <= k < |s| ==> IsSlugChar(s[k])
    ensures Lower(s) == s
  {
    assert forall k :: 0 <= k < |s| ==> !IsAsciiUpper(s[k]) && !FoldsToAscii(s[k]) by {
      forall k | 0 <= k < |s| ensures !IsAsciiUpper(s[k]) && !FoldsToAscii(s[k]) {
        assert IsSlugChar(s[k]);
      }
    }
  }

  /** Stripping leaves a string of slug characters alone. */
  lemma SlugCharsSurvive(s: string)
    requires forall k :: 0 <= k < |s| ==> IsSlugChar(s[k])
    ensures StripDisallowed(s) == s
  {
    assert forall k :: 0 <= k < |s| ==> Survives(s[k]) by {
      forall k | 0 <= k < |s| ensures Survives(s[k]) {
        assert IsSlugChar(s[k]);
      }
    }
  }

  /** A non-empty run of `[a-z0-9]`. */
  predicate IsLowerWord(w: string) {
    w != [] && forall k :: 0 <= k < |w| ==> IsAsciiLower(w[k]) || IsDigit(w[k])
  }

  /**
   * A lower-case word with surrounding spaces keeps them as dashes: `" pool "` becomes
   * `"-pool-"`, not `"pool"`.
   */
  lemma SurroundingSpacesBecomeDashes(w: string)
    requires IsLowerWord(w)
    ensures Slug(" " + w + " ") == "-" + w + "-"
  {
    var t, d := " " + w + " ", "-" + w + "-";
    assert NoWhitespace(w) by {
      forall k | 0 <= k < |w| ensures !IsWhitespace(w[k]) {
        assert IsAsciiLower(w[k]) || IsDigit(w[k]);
      }
    }
    calc {
      Slug(t);
      { TrimIsNoOp(t); }
      UntrimmedSlug(t);
      { SpacedWordSurvives(w); }
      SqueezeDashes(DashWhitespaceRuns(t, false), false);
      { DashSurroundedWord(w); }
      SqueezeDashes(d, false);
      { DashedWordSqueezed(w); }
      d;
    }
  }

  /** Lower-casing and stripping leave a spaced lower-case word alone. */
  lemma SpacedWordSurvives(w: string)
    requires IsLowerWord(w)
    ensures Lower(" " + w + " ") == " " + w + " "
    ensures StripDisallowed(" " + w + " ") == " " + w + " "
  {
    var t := " " + w + " ";
    SpacedWordChars(w);
    assert forall k :: 0 <= k < |t| ==> !IsAsciiUpper(t[k]) && !FoldsToAscii(t[k]);
    assert forall k :: 0 <= k < |t| ==> Survives(t[k]);
  }

  /** A spaced lower-case word holds only spaces, small letters and digits. */
  lemma SpacedWordChars(w: string)
    requires IsLowerWord(w)
    ensures forall k :: 0 <= k < |" " + w + " "| ==>
      var c := (" " + w + " ")[k]; c == ' ' || IsAsciiLower(c) || IsDigit(c)
  {
    var t := " " + w + " ";
    forall k | 0 <= k < |t| ensures t[k] == ' ' || IsAsciiLower(t[k]) || IsDigit(t[k]) {
      if 0 < k < |t| - 1 {
        assert t[k] == w[k - 1];
      }
    }
  }

  /** A dashed lower-case word has no run of dashes to squeeze. */
  lemma DashedWordSqueezed(w: string)
    requires IsLowerWord(w)
    ensures SqueezeDashes("-" + w + "-", false) == "-" + w + "-"
  {
    var d := "-" + w + "-";
    assert NoDoubleDash(d) by {
      forall k | 0 <= k < |d| - 1 ensures !(d[k] == '-' && d[k + 1] == '-') {
        if k == 0 {
          assert d[1] == w[0];
        } else {
          assert d[k] == w[k - 1];
        }
      }
    }
  }

  /** A word between two spaces: the word is copied and each space becomes a dash. */
  lemma DashSurroundedWord(w: string)
    requires w != [] && NoWhitespace(w)
    ensures DashWhitespaceRuns(" " + w + " ", false) == "-" + w + "-"
  {
    var t := " " + w + " ";
    assert t[0] == ' ' && t[1..] == w + " ";
    DashWord(w, true);
  }

  /** A word followed by one space: the word is copied and the space becomes a dash. */
  lemma {:induction false} DashWord(w: string, inRun: bool)
    requires NoWhitespace(w)
    requires w == [] ==> !inRun
    ensures DashWhitespaceRuns(w + " ", inRun) == w + "-"
  {
    if w == [] {
      assert DashWhitespaceRuns(" ", false) == "-" + DashWhitespaceRuns("", true);
    } else {
      assert (w + " ")[0] == w[0];
      assert (w + " ")[1..] == w[1..] + " ";
      DashWord(w[1..], false);
    }
  }

  /** The characters a slug keeps from its title: `[a-z0-9]`. */
  predicate IsLowerAlnum(c: char) {
    IsAsciiLower(c) || IsDigit(c)
  }

  /**
   * The letters and digits of the lower-cased title all reach the slug, in order, and no other
   * letter or digit does: only dashes are added, and only whitespace and other characters dropped.
   */
  lemma SlugKeepsLettersAndDigits(title: string)
    ensures Filter(Slug(title), IsLowerAlnum) == Filter(Lower(title), IsLowerAlnum)
  {
    var stripped := StripDisallowed(Lower(title));
    var dashed := DashWhitespaceRuns(stripped, false);
    StripKeepsLettersAndDigits(Lower(title));
    DashKeepsLettersAndDigits(stripped, false);
    SqueezeKeepsLettersAndDigits(dashed, false);
    TrimIsNoOp(title);
  }

  /** Stripping keeps every `[a-z0-9]` character, in order. */
  lemma {:induction false} StripKeepsLettersAndDigits(s: string)
    ensures Filter(StripDisallowed(s), IsLowerAlnum) == Filter(s, IsLowerAlnum)
  {
    if s != [] {
      StripKeepsLettersAndDigits(s[1..]);
      var rest := StripDisallowed(s[1..]);
      assert s == [s[0]] + s[1..];
      FilterCons(s[0], s[1..], IsLowerAlnum);
      if Survives(s[0]) {
        assert StripDisallowed(s) == [s[0]] + rest;
        FilterCons(s[0], rest, IsLowerAlnum);
      }
    }
  }

  /** Turning whitespace runs into dashes keeps every `[a-z0-9]` character, in order. */
  lemma {:induction false} DashKeepsLettersAndDigits(s: string, inRun: bool)
    ensures Filter(DashWhitespaceRuns(s, inRun), IsLowerAlnum) == Filter(s, IsLowerAlnum)
  {
    if s != [] {
      var c, t := s[0], s[1..];
      assert s == [c] + t;
      DashKeepsLettersAndDigits(t, IsWhitespace(c));
      DashCons(c, t, inRun);
      var head := DashedHead(c, inRun);
      FilterAppend(head, DashWhitespaceRuns(t, IsWhitespace(c)), IsLowerAlnum);
      FilterCons(c, t, IsLowerAlnum);
      if head != [] {
        FilterSingleton(head[0], IsLowerAlnum);
        assert head == [head[0]];
      }
    }
  }

  /** Squeezing dashes keeps every `[a-z0-9]` character, in order. */
  lemma {:induction false} SqueezeKeepsLettersAndDigits(s: string, inRun: bool)
    ensures Filter(SqueezeDashes(s, inRun), IsLowerAlnum) == Filter(s, IsLowerAlnum)
  {
    if s != [] {
      var c, t := s[0], s[1..];
      assert s == [c] + t;
      SqueezeKeepsLettersAndDigits(t, c == '-');
      SqueezeCons(c, t, inRun);
      var head := SqueezedHead(c, inRun);
      FilterAppend(head, SqueezeDashes(t, c == '-'), IsLowerAlnum);
      FilterCons(c, t, IsLowerAlnum);
      if head != [] {
        FilterSingleton(head[0], IsLowerAlnum);
        assert head == [head[0]];
      }
    }
  }

  /** What one character turns into when whitespace runs are dashed. */
  function DashedHead(c: char, inRun: bool): (r: string)
    ensures |r| <= 1
    ensures r != [] ==> r[0] == (if IsWhitespace(c) then '-' else c)
  {
    if IsWhitespace(c) then (if inRun then [] else ['-']) else [c]
  }

  /** One step of dashing: the first character, then the rest with the run state it leaves. */
  lemma DashCons(c: char, t: string, inRun: bool)
    ensures DashWhitespaceRuns([c] + t, inRun) == DashedHead(c, inRun) + DashWhitespaceRuns(t, IsWhitespace(c))
  {
    assert ([c] + t)[0] == c && ([c] + t)[1..] == t;
  }

  /** What one character turns into when dash runs are squeezed. */
  function SqueezedHead(c: char, inRun: bool): (r: string)
    ensures |r| <= 1
    ensures r != [] ==> r[0] == c
  {
    if c == '-' then (if inRun then [] else ['-']) else [c]
  }

  /** One step of squeezing: the first character, then the rest with the run state it leaves. */
  lemma SqueezeCons(c: char, t: string, inRun: bool)
    ensures SqueezeDashes([c] + t, inRun) == SqueezedHead(c, inRun) + SqueezeDashes(t, c == '-')
  {
    assert ([c] + t)[0] == c && ([c] + t)[1..] == t;
  }

  /** Every character of `s` is whitespace. */
  predicate AllWhitespace(s: string) {
    forall k :: 0 <= k < |s| ==> IsWhitespace(s[k])
  }

  /** A run of whitespace becomes one dash, or nothing when it continues a run. */
  lemma {:induction false} WhitespaceRunIsOneDash(w: string, inRun: bool)
    requires w != [] && AllWhitespace(w)
    ensures DashWhitespaceRuns(w, inRun) == (if inRun then "" else "-")
  {
    if |w| > 1 {
      WhitespaceRunIsOneDash(w[1..], true);
    }
  }

  /** Whether the character before the next one is whitespace, after `s` preceded by `inRun`. */
  function EndsInWhitespace(s: string, inRun: bool): bool {
    if s == [] then inRun else IsWhitespace(s[|s| - 1])
  }

  lemma EndsInWhitespaceCons(c: char, u: string, inRun: bool)
    ensures EndsInWhitespace([c] + u, inRun) == EndsInWhitespace(u, IsWhitespace(c))
  {
    if u != [] {
      assert ([c] + u)[|u|] == u[|u| - 1];
    }
  }

  /** Dashing whitespace runs works piece by piece, carrying whether a run is open. */
  lemma {:induction false} DashAppend(s: string, t: string, inRun: bool)
    ensures DashWhitespaceRuns(s + t, inRun) == DashWhitespaceRuns(s, inRun) + DashWhitespaceRuns(t, EndsInWhitespace(s, inRun))
  {
    if s == [] {
      assert s + t == t;
    } else {
      var c, u := s[0], s[1..];
      assert s == [c] + u;
      DashAppend(u, t, IsWhitespace(c));
      DashAppendCons(c, u, t, inRun);
    }
  }

  /** The step of `DashAppend`: a character in front of `u` keeps the split of `u + t`. */
  lemma DashAppendCons(c: char, u: string, t: string, inRun: bool)
    requires DashWhitespaceRuns(u + t, IsWhitespace(c))
      == DashWhitespaceRuns(u, IsWhitespace(c)) + DashWhitespaceRuns(t, EndsInWhitespace(u, IsWhitespace(c)))
    ensures DashWhitespaceRuns([c] + u + t, inRun)
      == DashWhitespaceRuns([c] + u, inRun) + DashWhitespaceRuns(t, EndsInWhitespace([c] + u, inRun))
  {
    var h := DashedHead(c, inRun);
    var e := EndsInWhitespace(u, IsWhitespace(c));
    EndsInWhitespaceCons(c, u, inRun);
    AppendAssoc([c], u, t);
    calc {
      DashWhitespaceRuns([c] + (u + t), inRun);
      { DashCons(c, u + t, inRun); }
      h + DashWhitespaceRuns(u + t, IsWhitespace(c));
      h + (DashWhitespaceRuns(u, IsWhitespace(c)) + DashWhitespaceRuns(t, e));
      { AppendAssoc(h, DashWhitespaceRuns(u, IsWhitespace(c)), DashWhitespaceRuns(t, e)); }
      (h + DashWhitespaceRuns(u, IsWhitespace(c))) + DashWhitespaceRuns(t, e);
      { DashCons(c, u, inRun); }
      DashWhitespaceRuns([c] + u, inRun) + DashWhitespaceRuns(t, e);
    }
  }

  /** Whether the character before the next one is `-`, after `s` preceded by `inRun`. */
  function EndsInDash(s: string, inRun: bool): bool {
    if s == [] then inRun else s[|s| - 1] == '-'
  }

  lemma EndsInDashCons(c: char, u: string, inRun: bool)
    ensures EndsInDash([c] + u, inRun) == EndsInDash(u, c == '-')
  {
    if u != [] {
      assert ([c] + u)[|u|] == u[|u| - 1];
    }
  }

  /** Squeezing dash runs works piece by piece, carrying whether a run is open. */
  lemma {:induction false} SqueezeAppend(s: string, t: string, inRun: bool)
    ensures SqueezeDashes(s + t, inRun) == SqueezeDashes(s, inRun) + SqueezeDashes(t, EndsInDash(s, inRun))
  {
    if s == [] {
      assert s + t == t;
    } else {
      var c, u := s[0], s[1..];
      assert s == [c] + u;
      SqueezeAppend(u, t, c == '-');
      SqueezeAppendCons(c, u, t, inRun);
    }
  }

  /** The step of `SqueezeAppend`: a character in front of `u` keeps the split of `u + t`. */
  lemma SqueezeAppendCons(c: char, u: string, t: string, inRun: bool)
    requires SqueezeDashes(u + t, c == '-') == SqueezeDashes(u, c == '-') + SqueezeDashes(t, EndsInDash(u, c == '-'))
    ensures SqueezeDashes([c] + u + t, inRun) == SqueezeDashes([c] + u, inRun) + SqueezeDashes(t, EndsInDash([c] + u, inRun))
  {
    var h := SqueezedHead(c, inRun);
    var e := EndsInDash(u, c == '-');
    EndsInDashCons(c, u, inRun);
    AppendAssoc([c], u, t);
    calc {
      SqueezeDashes([c] + (u + t), inRun);
      { SqueezeCons(c, u + t, inRun); }
      h + SqueezeDashes(u + t, c == '-');
      h + (SqueezeDashes(u, c == '-') + SqueezeDashes(t, e));
      { AppendAssoc(h, SqueezeDashes(u, c == '-'), SqueezeDashes(t, e)); }
      (h + SqueezeDashes(u, c == '-')) + SqueezeDashes(t, e);
      { SqueezeCons(c, u, inRun); }
      SqueezeDashes([c] + u, inRun) + SqueezeDashes(t, e);
    }
  }

  /** A character that can leave an ASCII letter or digit behind after lower-casing. */
  predicate IsAsciiAlnumSource(c: char) {
    IsAsciiLower(c) || IsAsciiUpper(c) || IsDigit(c) || FoldsToAscii(c)
  }

  /** Every character of `s` is `-`. */
  predicate AllDashes(s: string) {
    forall k :: 0 <= k < |s| ==> s[k] == '-'
  }

  /** Squeezing a string of dashes leaves at most one. */
  lemma {:induction false} SqueezeAllDashes(s: string, inRun: bool)
    requires AllDashes(s)
    ensures SqueezeDashes(s, inRun) == (if s == [] || inRun then "" else "-")
  {
    if s != [] {
      SqueezeAllDashes(s[1..], true);
    }
  }

  /**
   * A title without ASCII letters or digits (a Hebrew title, say) has the slug `""`, or `"-"`
   * when it contains whitespace or dashes; two such projects therefore share a slug.
   */
  lemma {:induction false} NoAsciiAlnumGivesEmptySlug(title: string)
    requires forall k :: 0 <= k < |title| ==> !IsAsciiAlnumSource(title[k])
    ensures Slug(title) == "" || Slug(title) == "-"
  {
    var lowered := Lower(title);
    LowerKeepsNonAlnum(title);
    var stripped := StripDisallowed(lowered);
    assert forall k :: 0 <= k < |stripped| ==> IsWhitespace(stripped[k]) || stripped[k] == '-' by {
      forall k | 0 <= k < |stripped| ensures IsWhitespace(stripped[k]) || stripped[k] == '-' {
        assert Survives(stripped[k]);
        assert stripped[k] in lowered;
      }
    }
    var dashed := DashWhitespaceRuns(stripped, false);
    assert AllDashes(dashed);
    SqueezeAllDashes(dashed, false);
    TrimIsNoOp(title);
  }

  /** Lower-casing does not create ASCII letters or digits out of characters that cannot produce them. */
  lemma {:induction false} LowerKeepsNonAlnum(s: string)
    requires forall k :: 0 <= k < |s| ==> !IsAsciiAlnumSource(s[k])
    ensures forall k :: 0 <= k < |Lower(s)| ==> !IsAsciiLower(Lower(s)[k]) && !IsDigit(Lower(s)[k])
  {
    if s != [] {
      LowerKeepsNonAlnum(s[1..]);
      assert LowerChar(s[0]) == [s[0]];
      assert Lower(s) == [s[0]] + Lower(s[1..]);
    }
  }
}
