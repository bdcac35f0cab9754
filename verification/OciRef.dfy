/** OCI references: the registry's parser and printer, and the puller's own parser. */
module OciRefs {
  import opened Collections
  import opened Strings

  /** `registry/repository[:tag][@digest]` */
  datatype OciRef = OciRef(registry: string, repository: string, tag: Option<string>, digest: Option<string>)

  function SplitDigest(s: string): (string, Option<string>) {
    var at := FirstOf(s, '@');
    if at.None? then (s, None) else (s[..at.value], Some(s[at.value + 1..]))
  }

  /** The last colon starts a tag unless it belongs to the registry's port. */
  function SplitTag(s: string): (string, Option<string>) {
    var colon := LastOf(s, ':');
    if colon.Some? && '/' in s[..colon.value] then (s[..colon.value], Some(s[colon.value + 1..])) else (s, None)
  }

  /** `OciRef::parse`: None for a reference without '/'. */
  function Parse(s: string): Option<OciRef> {
    var (withoutDigest, digest) := SplitDigest(s);
    var (withoutTag, tag) := SplitTag(withoutDigest);
    var slash := FirstOf(withoutTag, '/');
    if slash.None? then None
    else Some(OciRef(withoutTag[..slash.value], withoutTag[slash.value + 1..], tag, digest))
  }

  function Suffix(c: char, part: Option<string>): string {
    if part.Some? then [c] + part.value else ""
  }

  function ToStringRepr(r: OciRef): string {
    r.registry + "/" + r.repository + Suffix(':', r.tag) + Suffix('@', r.digest)
  }

  /** The references a parse can produce. */
  predicate WellFormed(r: OciRef) {
    && '/' !in r.registry && '@' !in r.registry && '@' !in r.repository
    && (r.tag.Some? ==> ':' !in r.tag.value && '@' !in r.tag.value)
    && (r.tag.None? ==> ':' !in r.repository)
  }

  lemma ParseWellFormed(s: string)
    requires Parse(s).Some?
    ensures WellFormed(Parse(s).value)
  {
    hide FirstOf, LastOf;
    var (l, digest) := SplitDigest(s);
    var (body, tag) := SplitTag(l);
    assert '@' !in l;
    TagWellFormed(l);
    hide SplitDigest, SplitTag;
    var slash := FirstOf(body, '/').value;
    assert body == body[..slash] + ['/'] + body[slash + 1..];
  }

  lemma TagWellFormed(l: string)
    requires '/' in SplitTag(l).0
    ensures var (body, tag) := SplitTag(l); var slash := FirstOf(body, '/').value;
            && l == body + Suffix(':', tag)
            && (tag.Some? ==> ':' !in tag.value) && (tag.None? ==> ':' !in body[slash + 1..])
  {
    hide FirstOf, LastOf;
    var (body, tag) := SplitTag(l);
    var slash, colon := FirstOf(body, '/').value, LastOf(l, ':');
    if tag.Some? {
      assert l == body + [':'] + tag.value;
    } else if colon.Some? {
      PortColonOnly(l, colon.value, slash);
    }
  }

  /** If no '/' stands before the last colon, no colon stands after a '/'. */
  lemma PortColonOnly(l: string, colon: nat, slash: nat)
    requires colon < |l| && slash < |l| && l[colon] == ':' && l[slash] == '/'
    requires '/' !in l[..colon] && ':' !in l[colon + 1..]
    ensures ':' !in l[slash + 1..]
  {
    assert forall i :: 0 <= i < colon ==> l[..colon][i] == l[i];
    assert slash > colon;
    assert l[colon + 1..] == l[colon + 1..slash + 1] + l[slash + 1..];
  }

  lemma DigestSplitsBack(s: string)
    ensures var (l, digest) := SplitDigest(s); s == l + Suffix('@', digest)
  {
  }

  lemma TagSplitsBack(s: string)
    ensures var (l, tag) := SplitTag(s); s == l + Suffix(':', tag)
  {
  }

  /** Printing what was parsed gives the text back, whatever it was. */
  lemma PrintAfterParse(s: string)
    requires Parse(s).Some?
    ensures ToStringRepr(Parse(s).value) == s
  {
    DigestSplitsBack(s);
    var (l, digest) := SplitDigest(s);
    TagSplitsBack(l);
    var (body, tag) := SplitTag(l);
    hide SplitDigest, SplitTag;
    var slash := FirstOf(body, '/').value;
    assert body == body[..slash] + "/" + body[slash + 1..];
  }

  lemma SplitDigestOf(l: string, digest: Option<string>)
    requires '@' !in l
    ensures SplitDigest(l + Suffix('@', digest)) == (l, digest)
  {
    if digest.Some? {
      var s := l + Suffix('@', digest);
      assert s == l + ['@'] + digest.value;
      FirstAt(l, '@', digest.value);
      assert s[..|l|] == l && s[|l| + 1..] == digest.value;
    } else {
      assert l + "" == l;
    }
  }

  lemma SplitTagOf(registry: string, repository: string, tag: Option<string>)
    requires tag.Some? ==> ':' !in tag.value
    requires tag.None? ==> ':' !in repository && '/' !in registry
    ensures SplitTag(registry + "/" + repository + Suffix(':', tag)) == (registry + "/" + repository, tag)
  {
    var body := registry + "/" + repository;
    var s := body + Suffix(':', tag);
    if tag.Some? {
      assert s == body + [':'] + tag.value;
      LastAt(body, ':', tag.value);
      assert s[..|body|] == body && s[|body| + 1..] == tag.value;
      assert body[|registry|] == '/';
    } else {
      assert s == body;
      var colon := LastOf(body, ':');
      if colon.Some? {
        assert forall i :: |registry| < i < |body| ==> body[i] == repository[i - |registry| - 1];
        assert forall i :: 0 <= i < |registry| ==> body[i] == registry[i];
        assert colon.value < |registry|;
        assert forall i :: 0 <= i < colon.value ==> body[..colon.value][i] == registry[i];
      }
    }
  }

  /** A record survives print-then-parse exactly if it is well-formed. */
  lemma ParseAfterPrint(r: OciRef)
    ensures Parse(ToStringRepr(r)) == Some(r) <==> WellFormed(r)
  {
    if WellFormed(r) {
      var body := r.registry + "/" + r.repository;
      SplitDigestOf(body + Suffix(':', r.tag), r.digest);
      SplitTagOf(r.registry, r.repository, r.tag);
      FirstAt(r.registry, '/', r.repository);
      assert body == r.registry + ['/'] + r.repository;
      assert body[..|r.registry|] == r.registry && body[|r.registry| + 1..] == r.repository;
    } else if Parse(ToStringRepr(r)) == Some(r) {
      ParseWellFormed(ToStringRepr(r));
    }
  }

  // -- The puller's parser ---------------------------------------------------

  /** What follows the registry: a digest if there is an '@', else a tag, else "latest". */
  function ParseRest(registry: string, rest: string): (string, string, string) {
    var at := FirstOf(rest, '@');
    if at.Some? then (registry, rest[..at.value], rest[at.value + 1..])
    else
      var colon := LastOf(rest, ':');
      if colon.Some? then (registry, rest[..colon.value], rest[colon.value + 1..])
      else (registry, rest, "latest")
  }

  /** `parse_oci_ref`: registry, repository and the tag or digest to fetch. */
  function ParseOciRef(s: string): Option<(string, string, string)> {
    var slash := FirstOf(s, '/');
    if slash.None? then None else Some(ParseRest(s[..slash.value], s[slash.value + 1..]))
  }

  lemma AfterSlash(registry: string, rest: string)
    requires '/' !in registry
    ensures ParseOciRef(registry + ['/'] + rest) == Some(ParseRest(registry, rest))
  {
    hide ParseRest, FirstOf;
    var s := registry + ['/'] + rest;
    FirstAt(registry, '/', rest);
    assert s[..|registry|] == registry && s[|registry| + 1..] == rest;
  }

  /** Without a tag or a digest the latest is fetched. */
  lemma LatestIsFetched(registry: string, repository: string)
    requires '/' !in registry && '@' !in repository && ':' !in repository
    ensures ParseOciRef(registry + "/" + repository) == Some((registry, repository, "latest"))
  {
    hide FirstOf, LastOf, ParseOciRef;
    AfterSlash(registry, repository);
    assert registry + ['/'] + repository == registry + "/" + repository;
  }

  function Wanted(r: OciRef): string {
    if r.digest.Some? then r.digest.value else if r.tag.Some? then r.tag.value else "latest"
  }

  lemma PulledWithDigest(r: OciRef)
    requires WellFormed(r) && r.digest.Some?
    ensures ParseOciRef(ToStringRepr(r)) == Some((r.registry, r.repository + Suffix(':', r.tag), r.digest.value))
  {
    hide FirstOf, LastOf, ParseOciRef;
    var repo := r.repository + Suffix(':', r.tag);
    var rest := repo + ['@'] + r.digest.value;
    assert ToStringRepr(r) == r.registry + ['/'] + rest;
    AfterSlash(r.registry, rest);
    DigestFirst(r.registry, repo, r.digest.value);
  }

  lemma DigestFirst(registry: string, repo: string, digest: string)
    requires '@' !in repo
    ensures ParseRest(registry, repo + ['@'] + digest) == (registry, repo, digest)
  {
    hide FirstOf, LastOf;
    var rest := repo + ['@'] + digest;
    FirstAt(repo, '@', digest);
    assert rest[..|repo|] == repo && rest[|repo| + 1..] == digest;
  }

  lemma PulledWithoutDigest(r: OciRef)
    requires WellFormed(r) && r.digest.None?
    ensures ParseOciRef(ToStringRepr(r)) == Some((r.registry, r.repository, Wanted(r)))
  {
    hide FirstOf, LastOf, ParseOciRef;
    var rest := r.repository + Suffix(':', r.tag);
    assert ToStringRepr(r) == r.registry + ['/'] + rest;
    AfterSlash(r.registry, rest);
    if r.tag.Some? {
      assert rest == r.repository + [':'] + r.tag.value;
      LastAt(r.repository, ':', r.tag.value);
      assert rest[..|r.repository|] == r.repository && rest[|r.repository| + 1..] == r.tag.value;
    } else {
      assert rest == r.repository;
    }
  }

  /** The two parsers understand an accepted reference the same way exactly if it does
      not carry both a tag and a digest: the puller then keeps the tag in the repository. */
  lemma ParsersAgree(s: string)
    requires Parse(s).Some?
    ensures var r := Parse(s).value;
            ParseOciRef(s) == Some((r.registry, r.repository, Wanted(r))) <==> !(r.tag.Some? && r.digest.Some?)
  {
    var r := Parse(s).value;
    ParseWellFormed(s);
    PrintAfterParse(s);
    if r.digest.Some? {
      PulledWithDigest(r);
      assert |Suffix(':', r.tag)| > 0 <==> r.tag.Some?;
      if r.tag.Some? { assert |r.repository + Suffix(':', r.tag)| > |r.repository|; }
      else { assert r.repository + Suffix(':', r.tag) == r.repository; }
    } else {
      PulledWithoutDigest(r);
    }
  }
}
