/**
 * `getTechIconUrl` of the tech-stack widget: the Simple Icons CDN address of a
 * technology's logo. The override table `iconMap` lives in a constant file of
 * its own and is a parameter here.
 */
module TechIconUrl {
  import opened JsStrings

  const CdnPrefix: string := "https://cdn.simpleicons.org/"

  /** What the slug rule produces: no '/', no '.', no whitespace, no upper-case ASCII letter. */
  predicate IsCleanSlug(s: string) {
    '/' !in s && '.' !in s && NoWhitespace(s) && NoUpper(s)
  }

  /** `iconMap[name]` is truthy: the name has an entry and it is not the empty string. */
  predicate Mapped(iconMap: map<string, string>, name: string) {
    name in iconMap && iconMap[name] != ""
  }

  /**
   * The slug of a name without an override: the part before the first '/',
   * trimmed and lower-cased, whitespace removed, each '.' spelled "dot".
   */
  function Slug(name: string): (r: string)
    ensures IsCleanSlug(r)
  {
    TrimWithin(BeforeFirst(name, '/'));
    var slug := ToLower(Trim(BeforeFirst(name, '/')));
    var compact := RemoveWhitespace(slug);
    RemoveWhitespaceLeavesNone(slug);
    RemoveWhitespaceAddsNothing(slug, '/');
    RemoveWhitespaceNoUpper(slug);
    ReplaceDotsLeavesNoDot(compact);
    ReplaceDotsAddsNothing(compact, '/');
    ReplaceDotsNoUpper(compact);
    ReplaceDotsNoWhitespace(compact);
    ReplaceDots(compact)
  }

  function GetTechIconUrl(iconMap: map<string, string>, name: string): (r: string)
    ensures CdnPrefix <= r
    ensures Mapped(iconMap, name) ==> r[|CdnPrefix|..] == iconMap[name]
    ensures !Mapped(iconMap, name) ==> r[|CdnPrefix|..] == Slug(name)
  {
    if Mapped(iconMap, name) then CdnPrefix + iconMap[name]
    else CdnPrefix + Slug(name)
  }

  /** The slug rule leaves a clean slug as it is. */
  lemma CleanSlugIsFixed(s: string)
    requires IsCleanSlug(s)
    ensures Slug(s) == s
  {
    assert BeforeFirst(s, '/') == s;
    TrimWithin(s);
    assert ToLower(s) == s;
    RemoveWhitespaceWithoutWhitespace(s);
    ReplaceDotsWithoutDots(s);
  }

  /** Normalising an already produced slug returns it unchanged. */
  lemma SlugIdempotent(name: string)
    ensures Slug(Slug(name)) == Slug(name)
  {
    CleanSlugIsFixed(Slug(name));
  }

  /** An unmapped name's address depends only on the part before its first '/'. */
  lemma SameHeadSameUrl(iconMap: map<string, string>, a: string, b: string)
    requires !Mapped(iconMap, a) && !Mapped(iconMap, b)
    requires BeforeFirst(a, '/') == BeforeFirst(b, '/')
    ensures GetTechIconUrl(iconMap, a) == GetTechIconUrl(iconMap, b)
  {
  }

  /** The part of an unmapped name's address after the prefix is a clean slug. */
  lemma UnmappedUrlIsClean(iconMap: map<string, string>, name: string)
    requires !Mapped(iconMap, name)
    ensures IsCleanSlug(GetTechIconUrl(iconMap, name)[|CdnPrefix|..])
  {
  }

}
