/** The text-fallback helpers over a parsed tag (main.py `get_text`,
    `get_text2`, `get_image`, `get_src`, `get_href`). A tag is reduced to its
    text content and its attributes; NFKC normalisation is the parameter
    `norm`. */
module Elements {
  import opened Wrappers
  import opened PyStr

  /** A tag of the fetched document: `tag.text` and `tag.attrs`. */
  datatype Element = Element(text: string, attrs: map<string, string>)

  /** Python truthiness of an optional string: present and non-empty. */
  predicate Truthy(t: Option<string>)
  {
    t.Some? && t.value != ""
  }

  /** `unicodedata.normalize("NFKC", t).strip() if t else None`. */
  function Finish(t: Option<string>, norm: string -> string): (r: Option<string>)
    ensures r.Some? <==> Truthy(t)
    ensures r.Some? ==> Strip(r.value) == r.value
  {
    if Truthy(t) then
      StripIdempotent(norm(t.value));
      Some(Strip(norm(t.value)))
    else None
  }

  /** The text content stripped, as the optional value `get_text` starts from. */
  function StrippedText(e: Element): Option<string>
  {
    Some(Strip(e.text))
  }

  /** `get_text`: the stripped text when there is any, otherwise the `title`
      attribute; normalised and stripped; None when neither is non-empty. */
  function GetText(e: Element, norm: string -> string): (r: Option<string>)
    ensures Strip(e.text) != "" ==> r == Some(Strip(norm(Strip(e.text))))
    ensures Strip(e.text) == "" ==> r == Finish(Get(e.attrs, "title"), norm)
    ensures r.None? <==> Strip(e.text) == "" && !Truthy(Get(e.attrs, "title"))
    ensures r.Some? ==> Strip(r.value) == r.value
  {
    var text := Strip(e.text);
    Finish(if text != "" then Some(text) else Get(e.attrs, "title"), norm)
  }

  /** `get_text2`: the `title` attribute when it is non-empty, otherwise the
      stripped text; normalised and stripped; None when neither is non-empty. */
  function GetText2(e: Element, norm: string -> string): (r: Option<string>)
    ensures Truthy(Get(e.attrs, "title")) ==> r == Some(Strip(norm(e.attrs["title"])))
    ensures !Truthy(Get(e.attrs, "title")) ==> r == Finish(StrippedText(e), norm)
    ensures r.None? <==> Strip(e.text) == "" && !Truthy(Get(e.attrs, "title"))
    ensures r.Some? ==> Strip(r.value) == r.value
  {
    var title := Get(e.attrs, "title");
    Finish(if Truthy(title) then title else StrippedText(e), norm)
  }

  /** `get_image`: the stripped text when there is any, otherwise the `src`
      attribute; normalised and stripped; None when neither is non-empty. */
  function GetImage(e: Element, norm: string -> string): (r: Option<string>)
    ensures Strip(e.text) != "" ==> r == Some(Strip(norm(Strip(e.text))))
    ensures Strip(e.text) == "" ==> r == Finish(Get(e.attrs, "src"), norm)
    ensures r.None? <==> Strip(e.text) == "" && !Truthy(Get(e.attrs, "src"))
  {
    var text := Strip(e.text);
    Finish(if text != "" then Some(text) else Get(e.attrs, "src"), norm)
  }

  /** `get_src`: the raw `src` attribute, if any. */
  function GetSrc(e: Element): (r: Option<string>)
    ensures r.Some? <==> "src" in e.attrs
    ensures r.Some? ==> r.value == e.attrs["src"]
  {
    Get(e.attrs, "src")
  }

  /** `get_href`: the raw `href` attribute, if any. */
  function GetHref(e: Element): (r: Option<string>)
    ensures r.Some? <==> "href" in e.attrs
    ensures r.Some? ==> r.value == e.attrs["href"]
  {
    Get(e.attrs, "href")
  }

  /** The two fallback orders differ only when the tag has both a non-blank
      text and a non-empty title: otherwise they pick the same source. */
  lemma {:induction false} TextPoliciesAgree(e: Element, norm: string -> string)
    requires Strip(e.text) == "" || !Truthy(Get(e.attrs, "title"))
    ensures GetText(e, norm) == GetText2(e, norm)
  {
  }
}
