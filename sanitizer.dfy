/**
 * The pure steps of the plugin: field-name normalisation, resolution of
 * person/account values, markup stripping and trimming, truncation of
 * injected values, and the classification of a clicked link.
 */
module Sanitizer {
  import opened Wrappers
  import opened JsStrings

  // ---------------------------------------------------------------------
  // Field names
  // ---------------------------------------------------------------------

  /** The encoded space that SharePoint puts into internal field names. */
  const EncodedSpace := "x0020_"

  /** `prop.replace("x0020_", "").toLowerCase()`. */
  function NormalizeKey(prop: string): (r: string)
    ensures |r| == |prop| - (if Contains(prop, EncodedSpace) then |EncodedSpace| else 0)
    ensures forall i :: 0 <= i < |r| ==> !IsUpper(r[i])
    ensures !Contains(prop, EncodedSpace) ==> r == Lower(prop)
  {
    Lower(RemoveFirst(prop, EncodedSpace))
  }

  /**
   * Only the first encoded space goes: a key `a + "x0020_" + b` whose head
   * `a` has none normalises to the lower-cased `a + b`, whatever `b` holds.
   */
  lemma NormalizeKeyFirst(a: string, b: string)
    requires !Contains(a, EncodedSpace)
    ensures NormalizeKey(a + EncodedSpace + b) == Lower(a + b)
  {
    var s := a + EncodedSpace + b;
    var n := |a|;
    assert s[n..n + 6] == EncodedSpace;
    assert OccursAt(s, EncodedSpace, n);
    forall j: nat | j < n
      ensures !OccursAt(s, EncodedSpace, j)
    {
      if j + 6 <= n {
        assert !OccursAt(a, EncodedSpace, j);
        assert s[j..j + 6] == a[j..j + 6];
      } else {
        // an occurrence here would end inside the token, where no '_' is
        assert s[j + 5] == EncodedSpace[j + 5 - n];
        assert s[j..j + 6][5] != EncodedSpace[5];
      }
    }
    var i := IndexOf(s, EncodedSpace);
    assert i == n;
    assert s[..n] + s[n + 6..] == a + b;
  }

  // ---------------------------------------------------------------------
  // Person and account values
  // ---------------------------------------------------------------------

  /** The claims-encoded login that marks a person/account value. */
  const AccountMarker := "#i:0#.w|accounts\\"

  /** One of the delimiters `;#` and `,#` starts at index `i`. */
  predicate IsDelimiterAt(s: string, i: nat) {
    i + 2 <= |s| && s[i + 1] == '#' && (s[i] == ';' || s[i] == ',')
  }

  predicate DelimiterFree(s: string) {
    forall i: nat :: i < |s| ==> !IsDelimiterAt(s, i)
  }

  /** `s.split(/;#|,#/)`. */
  function SplitAccount(s: string): (r: seq<string>)
    ensures |r| >= 1
    ensures |r[0]| <= |s| && r[0] == s[..|r[0]|]
    ensures forall k :: 0 <= k < |r| ==> DelimiterFree(r[k])
    decreases |s|
  {
    if s == [] then [""]
    else if IsDelimiterAt(s, 0) then [""] + SplitAccount(s[2..])
    else
      var rest := SplitAccount(s[1..]);
      var head := [s[0]] + rest[0];
      assert DelimiterFree(head) by {
        forall i: nat | i < |head| ensures !IsDelimiterAt(head, i) {
          if i == 0 {
            if IsDelimiterAt(head, 0) {
              assert s[1] == rest[0][0];
              assert IsDelimiterAt(s, 0);
            }
          } else {
            assert !IsDelimiterAt(rest[0], i - 1);
            assert i + 1 < |head| ==> head[i + 1] == rest[0][i];
          }
        }
      }
      [head] + rest[1..]
  }

  /** `s` with every `,#` delimiter written as `;#`. */
  function SemicolonDelimiters(s: string): string
    decreases |s|
  {
    if s == [] then []
    else if IsDelimiterAt(s, 0) then ";#" + SemicolonDelimiters(s[2..])
    else [s[0]] + SemicolonDelimiters(s[1..])
  }

  /** A character put in front of the first part comes out in front of the join. */
  lemma JoinConsHead(c: char, parts: seq<string>, sep: string)
    requires |parts| >= 1
    ensures Join([[c] + parts[0]] + parts[1..], sep) == [c] + Join(parts, sep)
  {
    var q := [[c] + parts[0]] + parts[1..];
    assert q[1..] == parts[1..];
    if |parts| > 1 {
      assert Join(q, sep) == ([c] + parts[0]) + sep + Join(parts[1..], sep);
    }
  }

  /** An empty first part leaves just the separator in front of the join of the rest. */
  lemma JoinEmptyHead(parts: seq<string>, sep: string)
    requires |parts| >= 1
    ensures Join([""] + parts, sep) == sep + Join(parts, sep)
  {
    assert ([""] + parts)[1..] == parts;
  }

  /**
   * Splitting loses only which of the two delimiters stood between two
   * segments: joined with `;#` the segments give back the input.
   */
  lemma {:induction false} JoinSplitAccount(s: string)
    ensures Join(SplitAccount(s), ";#") == SemicolonDelimiters(s)
    decreases |s|
  {
    if s == [] {
    } else if IsDelimiterAt(s, 0) {
      var rest := SplitAccount(s[2..]);
      assert SplitAccount(s) == [""] + rest;
      JoinSplitAccount(s[2..]);
      JoinEmptyHead(rest, ";#");
    } else {
      var rest := SplitAccount(s[1..]);
      assert SplitAccount(s) == [[s[0]] + rest[0]] + rest[1..];
      JoinSplitAccount(s[1..]);
      JoinConsHead(s[0], rest, ";#");
    }
  }

  /** `/^[\D]+/` matches: the segment starts with a non-digit. */
  predicate StartsNonDigit(t: string) {
    |t| > 0 && !('0' <= t[0] <= '9')
  }

  /** The index of the first segment that starts with a non-digit, or -1. */
  function FirstNamed(segs: seq<string>): (r: int)
    ensures -1 <= r < |segs|
    ensures r >= 0 ==> StartsNonDigit(segs[r])
    ensures forall j :: 0 <= j < |segs| && (r < 0 || j < r) ==> !StartsNonDigit(segs[j])
  {
    if segs == [] then -1
    else if StartsNonDigit(segs[0]) then 0
    else var k := FirstNamed(segs[1..]); if k < 0 then -1 else k + 1
  }

  /**
   * The value kept for a field: a value carrying the account marker is
   * replaced by its first delimited segment that starts with a non-digit;
   * with no such segment, or without the marker, the value is kept.
   */
  function ResolvedAccount(v: string): (r: string)
    ensures !Contains(v, AccountMarker) ==> r == v
    ensures Contains(v, AccountMarker) ==>
      var segs := SplitAccount(v);
      var k := FirstNamed(segs);
      (k < 0 ==> r == v && forall j :: 0 <= j < |segs| ==> !StartsNonDigit(segs[j]))
      && (k >= 0 ==> r == segs[k] && StartsNonDigit(r) && DelimiterFree(r)
                     && forall j :: 0 <= j < k ==> !StartsNonDigit(segs[j]))
  {
    if IndexOf(v, AccountMarker) >= 0 then
      var segs := SplitAccount(v);
      var k := FirstNamed(segs);
      if k >= 0 then segs[k] else v
    else v
  }

  // ---------------------------------------------------------------------
  // Markup stripping and cleaning
  // ---------------------------------------------------------------------

  /**
   * No substring of `s` matches `<[^>]+>`: every `<` that a later `>` follows
   * at a distance of two or more has a `>` in between.
   */
  predicate TagFree(s: string) {
    forall i, j :: 0 <= i && i + 1 < j < |s| && s[i] == '<' && s[j] == '>' ==> '>' in s[i + 1..j]
  }

  /** `s.replace(/<[^>]+>/g, "")`. */
  function StripTags(s: string): (r: string)
    ensures |r| <= |s|
    ensures forall c :: c in r ==> c in s
    decreases |s|
  {
    if s == [] then []
    else
      var close := CharIndex(s, '>');
      if s[0] == '<' && close >= 2 then
        var r := StripTags(s[close + 1..]);
        assert forall c :: c in r ==> c in s by {
          forall c | c in r ensures c in s {
            var k :| 0 <= k < |s[close + 1..]| && s[close + 1..][k] == c;
            assert s[close + 1 + k] == c;
          }
        }
        r
      else
        var r := [s[0]] + StripTags(s[1..]);
        assert forall c :: c in r ==> c in s by {
          forall c | c in r ensures c in s {
            if c != s[0] {
              var k :| 0 <= k < |s[1..]| && s[1..][k] == c;
              assert s[1 + k] == c;
            }
          }
        }
        r
  }

  /** `StripTags` of a string starting with `>` starts with `>`. */
  lemma StripTagsKeepsClose(s: string)
    requires s != [] && s[0] == '>'
    ensures StripTags(s) != [] && StripTags(s)[0] == '>'
  {
  }

  /** Prepending a character to a tag-free string keeps it tag-free unless it opens a tag. */
  lemma TagFreeCons(c: char, t: string)
    requires TagFree(t)
    requires c == '<' ==> (t != [] && t[0] == '>') || '>' !in t
    ensures TagFree([c] + t)
  {
    var r := [c] + t;
    forall i, j | 0 <= i && i + 1 < j < |r| && r[i] == '<' && r[j] == '>'
      ensures '>' in r[i + 1..j]
    {
      if i == 0 {
        assert r[j] == t[j - 1];
        assert t[0] == '>';
        assert r[i + 1..j][0] == '>';
      } else {
        assert t[i - 1] == '<' && t[j - 1] == '>';
        assert r[i + 1..j] == t[i..j - 1];
      }
    }
  }

  /** Stripping leaves no tag behind. */
  lemma {:induction false} StripTagsTagFree(s: string)
    ensures TagFree(StripTags(s))
    decreases |s|
  {
    if s != [] {
      var close := CharIndex(s, '>');
      if s[0] == '<' && close >= 2 {
        StripTagsTagFree(s[close + 1..]);
      } else {
        StripTagsTagFree(s[1..]);
        var t := StripTags(s[1..]);
        if s[0] == '<' {
          if |s| >= 2 && s[1] == '>' {
            StripTagsKeepsClose(s[1..]);
          } else {
            assert close < 0;
            assert '>' !in s[1..];
          }
        }
        TagFreeCons(s[0], t);
      }
    }
  }

  /** Stripping changes nothing in a tag-free string. */
  lemma {:induction false} StripTagsOfTagFree(s: string)
    requires TagFree(s)
    ensures StripTags(s) == s
    decreases |s|
  {
    if s != [] {
      var close := CharIndex(s, '>');
      if s[0] == '<' && close >= 2 {
        assert false;
      }
      assert TagFree(s[1..]) by {
        forall i, j | 0 <= i && i + 1 < j < |s[1..]| && s[1..][i] == '<' && s[1..][j] == '>'
          ensures '>' in s[1..][i + 1..j]
        {
          assert s[i + 1] == '<' && s[j + 1] == '>';
          assert s[1..][i + 1..j] == s[i + 2..j + 1];
        }
      }
      StripTagsOfTagFree(s[1..]);
      assert s == [s[0]] + s[1..];
    }
  }

  /**
   * An empty pair `<>` at the front is kept, since `[^>]+` cannot match
   * the `>` right after the `<`; stripping goes on after it.
   */
  lemma StripTagsEmptyPair(rest: string)
    ensures StripTags("<>" + rest) == "<>" + StripTags(rest)
  {
    assert CharIndex("<>" + rest, '>') == 1;
    assert ("<>" + rest)[1..] == ">" + rest;
    assert (">" + rest)[1..] == rest;
  }

  /** A tag at the front is dropped, with nothing else. */
  lemma StripTagsLeadingTag(tag: string, rest: string)
    requires tag != [] && '>' !in tag
    ensures StripTags("<" + tag + ">" + rest) == StripTags(rest)
  {
    var s := "<" + tag + ">" + rest;
    var n := |tag| + 1;
    assert s[n] == '>';
    forall j | 0 <= j < n ensures s[j] != '>' {
      if j > 0 { assert s[j] == tag[j - 1]; }
    }
    assert CharIndex(s, '>') == n;
    assert s[n + 1..] == rest;
  }

  /** A first character other than `<` is kept. */
  lemma StripTagsKeepsHead(c: char, t: string)
    requires c != '<'
    ensures StripTags([c] + t) == [c] + StripTags(t)
  {
    assert ([c] + t)[1..] == t;
  }

  /** Text without `<` passes through unchanged. */
  lemma {:induction false} StripTagsPlainPrefix(a: string, rest: string)
    requires '<' !in a
    ensures StripTags(a + rest) == a + StripTags(rest)
  {
    if a != [] {
      var tail := a[1..];
      assert StripTags(a + rest) == [a[0]] + StripTags(tail + rest) by {
        assert a + rest == [a[0]] + (tail + rest);
        StripTagsKeepsHead(a[0], tail + rest);
      }
      assert StripTags(tail + rest) == tail + StripTags(rest) by {
        assert '<' !in tail;
        StripTagsPlainPrefix(tail, rest);
      }
      assert [a[0]] + (tail + StripTags(rest)) == a + StripTags(rest);
    } else {
      assert a + rest == rest;
    }
  }

  /** Every infix of a tag-free string is tag-free. */
  lemma TagFreeInfix(s: string, r: string, n: nat)
    requires TagFree(s) && OccursAt(s, r, n)
    ensures TagFree(r)
  {
    forall i, j | 0 <= i && i + 1 < j < |r| && r[i] == '<' && r[j] == '>'
      ensures '>' in r[i + 1..j]
    {
      assert r == s[n..n + |r|];
      assert s[n + i] == '<' && s[n + j] == '>';
      assert '>' in s[n + i + 1..n + j];
      var k :| 0 <= k < j - i - 1 && s[n + i + 1..n + j][k] == '>';
      assert r[i + 1 + k] == s[n + i + 1 + k];
      assert r[i + 1..j][k] == '>';
    }
  }

  /** Trimming a tag-free string leaves it tag-free. */
  lemma TrimTagFree(s: string)
    requires TagFree(s)
    ensures TagFree(Trim(s))
  {
    var r := Trim(s);
    TagFreeInfix(s, r, LeadingSpaces(s));
  }

  /** The value has no markup and no surrounding white space. */
  predicate IsClean(v: string) {
    TagFree(v) && IsTrimmed(v)
  }

  /** `v.replace(/<[^>]+>/g, "").replace(/^\s+|\s+$/g, "")`. */
  function Clean(v: string): (r: string)
    ensures IsClean(r)
    ensures |r| <= |v|
  {
    var stripped := StripTags(v);
    StripTagsTagFree(v);
    TrimTagFree(stripped);
    Trim(stripped)
  }

  /**
   * The markup of a bold title and its closing tag goes; the padding stays. The
   * padding is a parameter fixed by the precondition so that the solver does
   * not unfold `StripTags` on the whole literal.
   */
  lemma StripTagsExample(pad: string)
    requires pad == "  "
    ensures StripTags("<b>" + "Report" + "</b>" + pad) == "Report" + pad
  {
    var closing := "<" + "/b" + ">" + pad;
    assert "<b>" + "Report" + "</b>" + pad == "<" + "b" + ">" + ("Report" + closing);
    StripTagsLeadingTag("b", "Report" + closing);
    StripTagsPlainPrefix("Report", closing);
    StripTagsLeadingTag("/b", pad);
    StripTagsPlainPrefix(pad, "");
    assert pad + "" == pad;
  }

  /** The value is a parameter fixed by the precondition, for the same reason as above. */
  lemma CleanExample(v: string)
    requires v == "<b>Report</b>  "
    ensures Clean(v) == "Report"
  {
    var pad := "  ";
    var t := "Report";
    assert v == "<b>" + t + "</b>" + pad;
    StripTagsExample(pad);
    assert StripTags(v) == "" + t + pad;
    assert AllSpace(pad) && IsTrimmed(t);
    TrimOfPadded("", t, pad);
  }

  /** Cleaning twice is cleaning once. */
  lemma CleanIdempotent(v: string)
    ensures Clean(Clean(v)) == Clean(v)
  {
    var c := Clean(v);
    StripTagsOfTagFree(c);
    assert "" + c + "" == c;
    TrimOfPadded("", c, "");
  }

  // ---------------------------------------------------------------------
  // Truncation of injected values
  // ---------------------------------------------------------------------

  /**
   * The value pushed for a limit of `limit` characters: a longer value is cut
   * to `limit` characters (`substring` treats a negative end as 0), cut back
   * to before its last space, and followed by "...".
   */
  function Truncate(v: string, limit: int): (r: string)
    ensures |v| <= limit ==> r == v
  {
    if |v| <= limit then v
    else
      var cut := if limit < 0 then 0 else limit;
      var prefix := v[..cut];
      var k := LastIndexOf(prefix, ' ');
      (if k < 0 then "" else prefix[..k]) + "..."
  }

  /**
   * A value over the limit ends in "...", is at most two characters longer
   * than the limit (or is just "..."), and keeps exactly the part of its
   * first `limit` characters before their last space; with no space there,
   * nothing of it is kept.
   */
  lemma TruncateLong(v: string, limit: int)
    requires |v| > limit
    ensures var r := Truncate(v, limit);
      && |r| >= 3 && r[|r| - 3..] == "..."
      && (|r| <= limit + 2 || r == "...")
    ensures var r := Truncate(v, limit);
      var cut := if limit < 0 then 0 else limit;
      (r == "..." && ' ' !in v[..cut])
      || exists k :: 0 <= k < cut && v[k] == ' ' && ' ' !in v[k + 1..cut] && r == v[..k] + "..."
  {
    var cut := if limit < 0 then 0 else limit;
    var prefix := v[..cut];
    var k := LastIndexOf(prefix, ' ');
    if k < 0 {
      assert ' ' !in prefix;
    } else {
      assert v[k] == ' ';
      assert v[k + 1..cut] == prefix[k + 1..];
      assert prefix[..k] == v[..k];
    }
  }

  /** A long title is cut at the last space within the limit. */
  lemma TruncateExample()
    ensures Truncate("A Very Long Document Title", 10) == "A Very..."
  {
    var v := "A Very Long Document Title";
    assert v[..10] == "A Very Lon";
    assert "A Very Lon"[..9] == "A Very Lo";
    assert "A Very Lo"[..8] == "A Very L";
    assert "A Very L"[..7] == "A Very ";
    assert LastIndexOf("A Very Lon", ' ') == 6;
    assert "A Very Lon"[..6] == "A Very";
  }

  /** A cleared value stays empty whenever the limit is not negative. */
  lemma TruncateEmpty(limit: int)
    requires limit >= 0
    ensures Truncate("", limit) == ""
  {
  }

  // ---------------------------------------------------------------------
  // Link clicks
  // ---------------------------------------------------------------------

  /** The parts of a clicked element that the link hook reads. */
  datatype Element = Element(className: string, innerText: Option<string>, textContent: Option<string>)

  const DownloadClass := "aDownload"
  const DownloadPhrase := "download asset"

  /** `el.innerText || el.textContent`: a missing or empty `innerText` falls back. */
  function LinkText(el: Element): Option<string> {
    if el.innerText.Some? && el.innerText.value != "" then el.innerText else el.textContent
  }

  /**
   * Whether a link click pushes the stored values (`Some(true)`) or clears
   * them (`Some(false)`); `None` when reading the element or its text faults,
   * so that the hook pushes nothing at all.
   */
  function PushesValues(el: Option<Element>): (r: Option<bool>)
    ensures r.None? <==> el.None? || LinkText(el.value).None?
    ensures el.Some? && el.value.className == DownloadClass && LinkText(el.value).Some? ==> r == Some(true)
  {
    match el
    case None => None
    case Some(e) =>
      match LinkText(e)
      case None => None
      case Some(text) => Some(e.className == DownloadClass || Lower(Trim(text)) == DownloadPhrase)
  }

  /**
   * The phrase is recognised in any letter case and with any white space
   * around it, whatever the class.
   */
  lemma DownloadPhraseRecognised(el: Element, a: string, t: string, b: string)
    requires AllSpace(a) && AllSpace(b) && Lower(t) == DownloadPhrase
    requires LinkText(el) == Some(a + t + b)
    ensures PushesValues(Some(el)) == Some(true)
  {
    assert Lower(t)[0] == LowerChar(t[0]) && Lower(t)[|t| - 1] == LowerChar(t[|t| - 1]);
    TrimOfPadded(a, t, b);
  }

  /** Any other link clears: the class differs and the trimmed text is not the phrase. */
  lemma OtherLinkClears(el: Element, text: string)
    requires LinkText(el) == Some(text)
    requires el.className != DownloadClass && Lower(Trim(text)) != DownloadPhrase
    ensures PushesValues(Some(el)) == Some(false)
  {
  }
}
