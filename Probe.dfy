/** The structural probe that the popup injects into the active page: a chain
    of substring tests over the page's markup (popup.js:73-91). */
module Probe {
  import opened Base
  import opened Text

  const ContentMarker: string := "wp-content"
  const IncludesMarker: string := "wp-includes"
  const PlatformName: string := "wordpress"

  /** What the probe can see of the rendered document, in document order:
      the `href` attribute of every `link` element that has one, the `src`
      attribute of every `script` element that has one, the `content` of the
      first `meta[name="generator"]` element (empty when the attribute is
      missing, `None` when there is no such element), and `head.innerHTML`. */
  datatype Document = Document(
    linkHrefs: seq<string>,
    scriptSrcs: seq<string>,
    generator: Option<string>,
    headHtml: string)

  /** `querySelector('[attr*="needle"]')` finds an element: some value in
      `values` includes `needle`. */
  function AnyIncludes(values: seq<string>, needle: string): bool
  {
    if values == [] then false
    else Includes(values[0], needle) || AnyIncludes(values[1..], needle)
  }

  /** The injected predicate, in the order of its tests. */
  predicate LooksLikeWordPress(page: Document)
  {
    if AnyIncludes(page.linkHrefs, ContentMarker)
       || AnyIncludes(page.scriptSrcs, IncludesMarker)
       || AnyIncludes(page.scriptSrcs, ContentMarker) then true
    else if page.generator.Some? && Includes(ToLower(page.generator.value), PlatformName) then true
    else if Includes(page.headHtml, ContentMarker) || Includes(page.headHtml, IncludesMarker) then true
    else false
  }

  /** Reference definition: some value in `values` has `needle` as a substring. */
  ghost predicate SomeHas(values: seq<string>, needle: string)
  {
    exists i :: 0 <= i < |values| && HasSubstring(values[i], needle)
  }

  /** The platform signature, stated with the reference substring relation:
      six tests over three markers, any one of which is enough. */
  ghost predicate Signature(page: Document)
  {
    || SomeHas(page.linkHrefs, ContentMarker)
    || SomeHas(page.scriptSrcs, IncludesMarker)
    || SomeHas(page.scriptSrcs, ContentMarker)
    || (page.generator.Some? && HasSubstring(ToLower(page.generator.value), PlatformName))
    || HasSubstring(page.headHtml, ContentMarker)
    || HasSubstring(page.headHtml, IncludesMarker)
  }

  lemma {:induction false} AnyIncludesIff(values: seq<string>, needle: string)
    ensures AnyIncludes(values, needle) <==> SomeHas(values, needle)
  {
    if values != [] {
      AnyIncludesIff(values[1..], needle);
      IncludesIff(values[0], needle);
      if SomeHas(values, needle) && !HasSubstring(values[0], needle) {
        var i :| 0 <= i < |values| && HasSubstring(values[i], needle);
        assert values[1..][i - 1] == values[i];
      }
      if SomeHas(values[1..], needle) {
        var j :| 0 <= j < |values[1..]| && HasSubstring(values[1..][j], needle);
        assert values[j + 1] == values[1..][j];
      }
    }
  }

  /** The probe returns true exactly when the page carries the signature. */
  lemma ProbeMatchesSignature(page: Document)
    ensures LooksLikeWordPress(page) <==> Signature(page)
  {
    AnyIncludesIff(page.linkHrefs, ContentMarker);
    AnyIncludesIff(page.scriptSrcs, IncludesMarker);
    AnyIncludesIff(page.scriptSrcs, ContentMarker);
    if page.generator.Some? {
      IncludesIff(ToLower(page.generator.value), PlatformName);
    }
    IncludesIff(page.headHtml, ContentMarker);
    IncludesIff(page.headHtml, IncludesMarker);
  }

  /** A script whose `src` contains the core-includes marker anywhere is enough. */
  lemma ScriptIncludesIsWordPress(page: Document, k: int, at: int)
    requires 0 <= k < |page.scriptSrcs|
    requires OccursAt(IncludesMarker, page.scriptSrcs[k], at)
    ensures LooksLikeWordPress(page)
  {
    IncludesIff(page.scriptSrcs[k], IncludesMarker);
    assert SomeHas(page.scriptSrcs, IncludesMarker);
    ProbeMatchesSignature(page);
  }

  /** The generator test ignores case: "WordPress 6.4" (or any casing of the
      name, anywhere in the content) is detected. */
  lemma GeneratorIgnoresCase(page: Document, word: string, at: int)
    requires page.generator.Some?
    requires OccursAt(word, page.generator.value, at)
    requires ToLower(word) == PlatformName
    ensures LooksLikeWordPress(page)
  {
    IncludesIgnoringCase(page.generator.value, word, PlatformName, at);
  }

  /** A page with no links, no scripts, no generator and an empty head is
      classified negative. */
  lemma BlankPageIsNotWordPress()
    ensures !LooksLikeWordPress(Document([], [], None, ""))
  {
    assert !("wp-content" <= "");
    assert !("wp-includes" <= "");
  }

  /** A page whose only script is `/wp-includes/x.js` is classified positive. */
  lemma IncludesScriptPage()
    ensures LooksLikeWordPress(Document([], ["/wp-includes/x.js"], None, ""))
  {
    var page := Document([], ["/wp-includes/x.js"], None, "");
    assert page.scriptSrcs[0][1..12] == IncludesMarker;
    ScriptIncludesIsWordPress(page, 0, 1);
  }
}
