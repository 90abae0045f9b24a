/** Which mirrored objects become templates, in plain words. */
module HtmlPages {
  import opened Common
  import opened Text
  import opened Freshness
  import opened LocalMirror
  import opened Edge
  import opened Templates

  /** `text/html`, whatever its case, between white space, alone or before a parameter. */
  ghost predicate SaysHtml(contentType: string) {
    exists before, media, after, rest :: SaysHtmlAs(contentType, before, media, after, rest)
  }

  predicate SaysHtmlAs(contentType: string, before: string, media: string, after: string, rest: string) {
    && contentType == before + media + after + rest
    && AllWhite(before) && SameUpToCase(media, "text/html") && AllWhite(after)
    && (rest != "" ==> rest[0] == ';')
  }

  /** The key ends in `.html` or `.htm`, whatever its case. */
  ghost predicate NamedHtml(key: string) {
    exists stem, ext :: key == stem + ext && (SameUpToCase(ext, ".html") || SameUpToCase(ext, ".htm"))
  }

  /** A content type decides; the name does only where there is none. */
  ghost predicate IsPage(key: string, obj: LocalObject) {
    if obj.metadata.contentType.Some? then SaysHtml(obj.metadata.contentType.value) else NamedHtml(key)
  }

  /** The body is text that compiles. */
  predicate IsSound(engine: Engine, obj: LocalObject) {
    engine.decode(obj.body).Some? && engine.compiles(engine.decode(obj.body).value)
  }

  lemma NoSeparator(before: string, media: string, after: string)
    requires AllWhite(before) && AllWhite(after) && SameUpToCase(media, "text/html")
    ensures ';' !in before + media + after && IsBare(media)
  {
    var html := "text/html";
    forall i | 0 <= i < |html| ensures html[i] != ';' && !IsWhitespace(html[i]) {}
    var s := before + media + after;
    forall i | 0 <= i < |s| ensures s[i] != ';' {
      if i < |before| {
        assert IsWhitespace(before[i]);
      } else if i < |before| + |media| {
        assert s[i] == media[i - |before|];
      } else {
        assert s[i] == after[i - |before| - |media|] && IsWhitespace(after[i - |before| - |media|]);
      }
    }
  }

  lemma HtmlHasNoCapitals()
    ensures !HasCapitals("text/html") && !HasCapitals(".html") && !HasCapitals(".htm")
  {
    var html, name, short := "text/html", ".html", ".htm";
    assert forall i :: 0 <= i < |html| ==> !('A' <= html[i] <= 'Z');
    assert forall i :: 0 <= i < |name| ==> !('A' <= name[i] <= 'Z');
    assert forall i :: 0 <= i < |short| ==> !('A' <= short[i] <= 'Z');
  }

  lemma TypeExactly(contentType: string)
    ensures ToAsciiLower(MediaType(contentType)) == "text/html" <==> SaysHtml(contentType)
  {
    HtmlHasNoCapitals();
    var head := Split(contentType, ';')[0];
    var rest := SplitHead(contentType, ';');
    var before, after := TrimMeaning(head);
    LowerIsSameUpToCase(Trim(head), "text/html");
    if SameUpToCase(Trim(head), "text/html") {
      assert SaysHtmlAs(contentType, before, Trim(head), after, rest);
    }
    if b, m, a, r :| SaysHtmlAs(contentType, b, m, a, r) {
      NoSeparator(b, m, a);
      SplitHeadOf(b + m + a, r, ';');
      assert head == b + m + a;
      TrimOf(b, m, a);
    }
  }

  lemma LowerOfEnd(key: string, n: nat)
    requires n <= |key|
    ensures ToAsciiLower(key)[|key| - n..] == ToAsciiLower(key[|key| - n..])
  {
  }

  lemma EndingExactly(key: string, ext: string)
    requires !HasCapitals(ext)
    ensures EndsWith(ToAsciiLower(key), ext) <==> exists stem, e :: key == stem + e && SameUpToCase(e, ext)
  {
    if |ext| <= |key| {
      var stem, e := key[..|key| - |ext|], key[|key| - |ext|..];
      assert key == stem + e;
      LowerOfEnd(key, |ext|);
      LowerIsSameUpToCase(e, ext);
    }
    if stem, e :| key == stem + e && SameUpToCase(e, ext) {
      assert e == key[|key| - |ext|..];
    }
  }

  lemma PageExactly(engine: Engine, key: string, obj: LocalObject)
    ensures PageOf(engine, key, obj) ==
      if !IsPage(key, obj) then NotHtml
      else if IsSound(engine, obj) then Compiled(Template(engine.decode(obj.body).value)) else Broken
  {
    HtmlHasNoCapitals();
    if obj.metadata.contentType.Some? {
      TypeExactly(obj.metadata.contentType.value);
    } else {
      EndingExactly(key, ".html");
      EndingExactly(key, ".htm");
    }
  }

  /** A rebuild succeeds exactly when every page is sound; it registers every page with its text, and nothing else. */
  lemma RebuiltExactly(engine: Engine, mirror: Mirror)
    ensures var r := FullRegistry(engine, mirror);
      && (r.Some? <==> forall k :: k in mirror && IsPage(k, mirror[k]) ==> IsSound(engine, mirror[k]))
      && (r.Some? ==> forall k :: k in r.value <==> k in mirror && IsPage(k, mirror[k]))
      && (r.Some? ==> forall k :: k in r.value ==> engine.decode(mirror[k].body) == Some(r.value[k].source))
  {
    forall k | k in mirror ensures Judge(engine, mirror)[k] ==
      if !IsPage(k, mirror[k]) then NotHtml
      else if IsSound(engine, mirror[k]) then Compiled(Template(engine.decode(mirror[k].body).value)) else Broken
    {
      PageExactly(engine, k, mirror[k]);
    }
  }

  /** An update succeeds exactly when every changed page is sound; a changed key is then registered
      exactly when it is a page, a removed one is gone, and any other keeps its entry. */
  lemma UpdatedExactly(engine: Engine, active: Registry, mirror: Mirror, diff: OriginFreshnessDiff)
    ensures var r, changed := UpdatedRegistry(engine, active, mirror, diff), diff.added + diff.modified;
      && (r.Some? <==> forall k :: k in changed && k in mirror && IsPage(k, mirror[k]) ==> IsSound(engine, mirror[k]))
      && (r.Some? ==> forall k :: k in r.value <==>
            if k in changed then k in mirror && IsPage(k, mirror[k]) else k in active && k !in diff.removed)
      && (r.Some? ==> forall k :: k in r.value && k in changed ==> engine.decode(mirror[k].body) == Some(r.value[k].source))
      && (r.Some? ==> forall k :: k in r.value && k !in changed ==> r.value[k] == active[k])
  {
    forall k | k in mirror ensures Judge(engine, mirror)[k] ==
      if !IsPage(k, mirror[k]) then NotHtml
      else if IsSound(engine, mirror[k]) then Compiled(Template(engine.decode(mirror[k].body).value)) else Broken
    {
      PageExactly(engine, k, mirror[k]);
    }
  }
}
