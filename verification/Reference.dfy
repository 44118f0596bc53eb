/** Image references: which registry, repository and tag a container's image string stands for. */
module Reference {
  import opened Common
  import opened Text

  datatype Reference = Reference(registry: string, repository: string, tag: string)

  const HUB := "registry-1.docker.io"

  predicate HexRun(s: string) {
    12 <= |s| <= 64 && forall i | 0 <= i < |s| :: '0' <= s[i] <= '9' || 'a' <= s[i] <= 'f'
  }

  /** A bare image id, with or without its algorithm. */
  predicate IsLocalID(image: string) {
    HexRun(image) || ("sha256:" <= image && HexRun(image[7..]))
  }

  /** A name and the tag it will get. */
  datatype Tagged = Tagged(name: string, tag: string)

  function CutDigest(image: string): Tagged {
    var at := Find(image, '@');
    if at < |image| then Tagged(image[..at], "") else Tagged(image, "latest")
  }

  /** A colon marks a tag only after the last slash. */
  function CutTag(t: Tagged): Tagged {
    var name := t.name;
    var slash := FindLast(name, '/');
    if slash >= 0 then
      var colon := FindLast(name[slash..], ':');
      if colon >= 0 then Tagged(name[..slash + colon], name[slash + colon + 1..]) else t
    else
      var colon := FindLast(name, ':');
      if colon >= 0 then Tagged(name[..colon], name[colon + 1..]) else t
  }

  predicate LooksLikeRegistry(host: string) {
    '.' in host || ':' in host || host == "localhost"
  }

  function WithRegistry(name: string, tag: string): Reference {
    var slash := Find(name, '/');
    if slash < |name| && LooksLikeRegistry(name[..slash]) then
      Reference(name[..slash], name[slash + 1..], tag)
    else if slash < |name| then
      Reference(HUB, name, tag)
    else
      Reference(HUB, "library/" + name, tag)
  }

  /** Docker Hub under its other names. */
  function Canonical(r: Reference): Reference {
    if r.registry == "docker.io" || r.registry == "index.docker.io" then
      Reference(HUB, if '/' in r.repository then r.repository else "library/" + r.repository, r.tag)
    else r
  }

  lemma PlacingKeepsTheTag(name: string, tag: string)
    ensures Canonical(WithRegistry(name, tag)).tag == tag
  {}

  function ParseReference(image: string): Result<Reference> {
    if image == "" || IsLocalID(image) then Failed
    else
      var t := CutTag(CutDigest(image));
      var ref := Canonical(WithRegistry(t.name, t.tag));
      if ref.tag == "" then Failed else Ok(ref)
  }

  /** The parser as it runs, rebinding the name and the tag step by step. */
  method Parse(image: string) returns (r: Result<Reference>)
    ensures r == ParseReference(image)
  {
    hide IsLocalID, CutTag, Canonical, WithRegistry;
    if image == "" || IsLocalID(image) { return Failed; }
    var name, tag := image, "latest";
    var at := Find(image, '@');
    if at < |image| {
      name, tag := image[..at], "";
    }
    name, tag := SplitTag(name, tag);
    PlacingKeepsTheTag(name, tag);
    r := Place(name, tag);
  }

  method SplitTag(image: string, default: string) returns (name: string, tag: string)
    ensures Tagged(name, tag) == CutTag(Tagged(image, default))
  {
    name, tag := image, default;
    var slash := FindLast(name, '/');
    if slash >= 0 {
      var colon := FindLast(name[slash..], ':');
      if colon >= 0 {
        name, tag := name[..slash + colon], name[slash + colon + 1..];
      }
    } else {
      var colon := FindLast(name, ':');
      if colon >= 0 {
        name, tag := name[..colon], name[colon + 1..];
      }
    }
  }

  method Place(name: string, tag: string) returns (r: Result<Reference>)
    ensures r == if tag == "" then Failed else Ok(Canonical(WithRegistry(name, tag)))
  {
    var ref: Reference;
    var first := Find(name, '/');
    if first < |name| && LooksLikeRegistry(name[..first]) {
      ref := Reference(name[..first], name[first + 1..], tag);
    } else {
      ref := Reference(HUB, name, tag);
      if first == |name| {
        ref := ref.(repository := "library/" + name);
      }
    }
    if ref.registry == "docker.io" || ref.registry == "index.docker.io" {
      ref := ref.(registry := HUB);
      if '/' !in ref.repository {
        ref := ref.(repository := "library/" + ref.repository);
      }
    }
    if tag == "" { return Failed; }
    return Ok(ref);
  }

  function RepoKey(r: Reference): string {
    if r.registry == HUB then TrimPrefix(r.repository, "library/") else r.registry + "/" + r.repository
  }

  /** The repository and digest of a RepoDigest; two empty strings when it has no digest. */
  function NormalizeRepoDigest(repoDigest: string): (string, string) {
    var at := Find(repoDigest, '@');
    if at == |repoDigest| then ("", "")
    else (NormalName(repoDigest[..at]), repoDigest[at + 1..])
  }

  function NormalName(repo: string): string {
    TrimPrefix(TrimPrefix(TrimPrefix(repo, "docker.io/"), "index.docker.io/"), "library/")
  }

  function Print(r: Reference): string {
    r.registry + "/" + r.repository + ":" + r.tag
  }

  // ---- The normal form -----------------------------------------------------------------------------------

  predicate TagText(tag: string) {
    tag != "" && '/' !in tag && ':' !in tag && '@' !in tag
  }

  lemma CutsTagAfterSlash(path: string, last: string, default: string, tag: string)
    requires '/' !in tag && ':' !in tag && '/' !in last
    ensures CutTag(Tagged(path + "/" + (last + ":" + tag), default)) == Tagged(path + "/" + last, tag)
  {
    hide FindLast;
    var tail := last + ":" + tag;
    var image := path + "/" + tail;
    FindLastIn(path, '/', tail);
    AfterSlash(path, last, tag);
    FindLastIn("/" + last, ':', tag);
  }

  lemma AfterSlash(path: string, last: string, tag: string)
    ensures var image := path + "/" + (last + ":" + tag);
            && image[|path|..] == ("/" + last) + ":" + tag
            && image[..|path| + |"/" + last|] == path + "/" + last
            && image[|path| + |"/" + last| + 1..] == tag
  {
  }

  lemma CutsTag(name: string, default: string, tag: string)
    requires '/' !in tag && ':' !in tag
    ensures CutTag(Tagged(name + ":" + tag, default)) == Tagged(name, tag)
  {
    if '/' in name {
      FindLastNone(name, '/');
      FindLastIsLast(name, '/');
      var slash := FindLast(name, '/');
      NotAfter(name, '/', slash + 1);
      assert name == name[..slash] + "/" + name[slash + 1..];
      assert name + ":" + tag == name[..slash] + "/" + (name[slash + 1..] + ":" + tag);
      CutsTagAfterSlash(name[..slash], name[slash + 1..], default, tag);
    } else {
      FindLastNone(name + ":" + tag, '/');
      FindLastIn(name, ':', tag);
    }
  }

  /** A name followed by a colon and a tag is cut exactly there, whatever colons the name has itself. */
  lemma CutsAtTheTag(name: string, tag: string)
    requires '@' !in name && TagText(tag)
    ensures CutTag(CutDigest(name + ":" + tag)) == Tagged(name, tag)
  {
    FindNone(name + ":" + tag, '@');
    CutsTag(name, "latest", tag);
  }

  lemma CutTagText(t: Tagged)
    requires '@' !in t.name && (t.tag == "" || TagText(t.tag))
    ensures '@' !in CutTag(t).name && (CutTag(t).tag == "" || TagText(CutTag(t).tag))
  {
    hide FindLast;
    var name, slash := t.name, FindLast(t.name, '/');
    FindLastIsLast(name, '/');
    var from := if slash >= 0 then slash else 0;
    var tail := name[from..];
    var colon := FindLast(tail, ':');
    FindLastIsLast(tail, ':');
    if colon >= 0 {
      forall i | from + colon < i < |name| ensures name[i] != '/' && name[i] != ':' && name[i] != '@' {
        assert name[i] == tail[i - from];
      }
      NotAfter(name, '/', from + colon + 1);
      NotAfter(name, ':', from + colon + 1);
      NotAfter(name, '@', from + colon + 1);
    }
    assert name[0..] == name;
  }

  lemma CutDigestText(image: string)
    ensures '@' !in CutDigest(image).name && (CutDigest(image).tag == "" || TagText(CutDigest(image).tag))
  {
    FindFirst(image, '@');
    FindNone(image, '@');
  }

  /** A parsed registry is one the parser will recognise again. */
  predicate Settled(r: Reference) {
    && '/' !in r.registry && LooksLikeRegistry(r.registry)
    && r.registry != "docker.io" && r.registry != "index.docker.io"
    && '@' !in r.registry && '@' !in r.repository
  }

  lemma HubIsSettled(repository: string, tag: string)
    requires '@' !in repository
    ensures Settled(Reference(HUB, repository, tag))
  {
    assert HUB[10] == '.';
  }

  lemma {:induction false} ParsedIsSettled(name: string, tag: string)
    requires '@' !in name
    ensures Settled(Canonical(WithRegistry(name, tag))) && Canonical(WithRegistry(name, tag)).tag == tag
  {
    var r := WithRegistry(name, tag);
    HubIsSettled(Canonical(r).repository, tag);
    FindFirst(name, '/');
  }

  lemma PlacedAgain(r: Reference)
    requires Settled(r)
    ensures Canonical(WithRegistry(r.registry + "/" + r.repository, r.tag)) == r
  {
    FindIn(r.registry, '/', r.repository);
  }

  lemma LocalIDsHaveNoSlash(image: string)
    requires IsLocalID(image)
    ensures '/' !in image
  {
    if !HexRun(image) {
      forall i | 0 <= i < |image| ensures image[i] != '/' {
        if i < 7 {
          assert image[i] == "sha256:"[i];
        } else {
          assert image[i] == image[7..][i - 7];
        }
      }
    }
  }

  /** Whatever string is accepted, printing what it stands for and parsing that gives the same reference. */
  lemma {:induction false} NormalFormIsStable(image: string)
    requires ParseReference(image).Ok?
    ensures ParseReference(Print(ParseReference(image).value)) == ParseReference(image)
  {
    var t := CutTag(CutDigest(image));
    CutDigestText(image);
    CutTagText(CutDigest(image));
    ParsedIsSettled(t.name, t.tag);
    PrintedParses(ParseReference(image).value);
  }

  lemma PrintedParses(r: Reference)
    requires Settled(r) && TagText(r.tag)
    ensures ParseReference(Print(r)) == Ok(r)
  {
    CutsAtTheTag(r.registry + "/" + r.repository, r.tag);
    PlacedAgain(r);
    assert Print(r)[|r.registry|] == '/';
    if IsLocalID(Print(r)) { LocalIDsHaveNoSlash(Print(r)); }
  }

  // ---- What a spelling stands for ------------------------------------------------------------------------

  predicate IsAlias(host: string) { host == "docker.io" || host == "index.docker.io" }

  /** A name without a slash is a Hub library image. */
  lemma ShortName(name: string, tag: string)
    requires '/' !in name && '@' !in name && TagText(tag) && !IsLocalID(name + ":" + tag)
    ensures ParseReference(name + ":" + tag) == Ok(Reference(HUB, "library/" + name, tag))
  {
    CutsAtTheTag(name, tag);
    FindNone(name, '/');
  }

  /** host/rest is on that host if it looks like one, on Hub under its whole name if not; Hub's own aliases stand
      for Hub, with the library namespace where rest has none. */
  lemma HostedName(host: string, rest: string, tag: string)
    requires '/' !in host && '@' !in host + "/" + rest && TagText(tag)
    ensures ParseReference(host + "/" + rest + ":" + tag) == Ok(
              if IsAlias(host) then Reference(HUB, if '/' in rest then rest else "library/" + rest, tag)
              else if '.' in host || ':' in host || host == "localhost" then Reference(host, rest, tag)
              else Reference(HUB, host + "/" + rest, tag))
  {
    var name := host + "/" + rest;
    CutsAtTheTag(name, tag);
    HostedNameIsPlaced(host, rest, tag);
    assert (name + ":" + tag)[|host|] == '/';
    if IsLocalID(name + ":" + tag) { LocalIDsHaveNoSlash(name + ":" + tag); }
  }

  lemma HostedNameIsPlaced(host: string, rest: string, tag: string)
    requires '/' !in host
    ensures Canonical(WithRegistry(host + "/" + rest, tag)) ==
              if IsAlias(host) then Reference(HUB, if '/' in rest then rest else "library/" + rest, tag)
              else if LooksLikeRegistry(host) then Reference(host, rest, tag)
              else Reference(HUB, host + "/" + rest, tag)
  {
    FindIn(host, '/', rest);
    assert "docker.io"[6] == '.' && "index.docker.io"[5] == '.';
  }

  /** Twelve to 64 lower-case hexadecimal digits, with or without "sha256:" before them. */
  predicate IsImageID(image: string) {
    exists prefix | prefix in ["", "sha256:"] ::
      prefix <= image && 12 <= |image| - |prefix| <= 64
      && forall i | |prefix| <= i < |image| :: image[i] in "0123456789abcdef"
  }

  lemma HexDigits(c: char)
    ensures c in "0123456789abcdef" <==> '0' <= c <= '9' || 'a' <= c <= 'f'
  {
    if '0' <= c <= '9' { assert "0123456789abcdef"[c as int - '0' as int] == c; }
    if 'a' <= c <= 'f' { assert "0123456789abcdef"[c as int - 'a' as int + 10] == c; }
  }

  lemma LocalIDIsImageID(image: string)
    ensures IsLocalID(image) <==> IsImageID(image)
  {
    forall c: char ensures c in "0123456789abcdef" <==> '0' <= c <= '9' || 'a' <= c <= 'f' { HexDigits(c); }
    var rest := if "sha256:" <= image then image[7..] else "";
    if "sha256:" <= image { assert forall i | 0 <= i < |rest| :: rest[i] == image[i + 7]; }
    if HexRun(image) { assert "" in ["", "sha256:"] && "" <= image; }
    if "sha256:" <= image && HexRun(rest) {
      forall i | 7 <= i < |image| ensures image[i] in "0123456789abcdef" { assert image[i] == rest[i - 7]; }
      assert "sha256:" in ["", "sha256:"];
    }
  }

  /** A name from its last slash on. */
  function LastComponent(name: string): string {
    var slash := FindLast(name, '/');
    if slash >= 0 then name[slash..] else name
  }

  /** What stands before the digest ends in a colon, or has no tag of its own and a digest after it. */
  predicate LeftTagless(image: string) {
    var name := image[..Find(image, '@')];
    || (name != "" && name[|name| - 1] == ':')
    || ('@' in image && ':' !in LastComponent(name))
  }

  lemma CutIsInLastComponent(name: string, tag: string)
    ensures var part := LastComponent(name);
      CutTag(Tagged(name, tag)).tag == if ':' in part then part[FindLast(part, ':') + 1..] else tag
  {
    FindLastNone(LastComponent(name), ':');
  }

  /** A string has a colon with nothing after its last one exactly when a colon ends it. */
  lemma EndsInColon(part: string)
    ensures (':' in part && part[FindLast(part, ':') + 1..] == "") <==> (part != "" && part[|part| - 1] == ':')
  {
    FindLastNone(part, ':');
    FindLastIsLast(part, ':');
  }

  /** The cut leaves an empty tag exactly when a colon ends the name, or there is none in its last component and
      the tag was empty before. */
  lemma CutLeavesTagless(name: string, tag: string)
    ensures CutTag(Tagged(name, tag)).tag == "" <==>
      (name != "" && name[|name| - 1] == ':') || (tag == "" && ':' !in LastComponent(name))
  {
    hide CutTag, FindLast;
    CutIsInLastComponent(name, tag);
    EndsInColon(LastComponent(name));
  }

  lemma TaglessExactlyWhen(image: string)
    ensures CutTag(CutDigest(image)).tag == "" <==> LeftTagless(image)
  {
    hide CutTag;
    FindNone(image, '@');
    assert image[..|image|] == image;
    CutLeavesTagless(CutDigest(image).name, CutDigest(image).tag);
  }

  /** An image string is refused exactly when it is empty, the id of a local image, or left without a tag. */
  lemma RefusedExactlyWhen(image: string)
    ensures ParseReference(image) == Failed <==> image == "" || IsImageID(image) || LeftTagless(image)
  {
    hide IsLocalID, IsImageID, LeftTagless, CutTag, CutDigest, Canonical, WithRegistry;
    LocalIDIsImageID(image);
    TaglessExactlyWhen(image);
    PlacingKeepsTheTag(CutTag(CutDigest(image)).name, CutTag(CutDigest(image)).tag);
  }

  /** No tag after the last slash. */
  predicate Untagged(name: string) {
    name != "" && '@' !in name && forall i | FindLast(name, '/') < i < |name| :: name[i] != ':'
  }

  lemma UntaggedIsNotCut(name: string, tag: string)
    requires Untagged(name)
    ensures CutTag(Tagged(name, tag)) == Tagged(name, tag)
  {
    var slash := FindLast(name, '/');
    if slash >= 0 {
      var tail := name[slash..];
      assert forall i | 0 <= i < |tail| :: tail[i] == name[slash + i];
      assert FindLast(tail, ':') == -1;
    } else {
      assert FindLast(name, ':') == -1;
    }
  }

  lemma CutUntagged(name: string)
    requires Untagged(name)
    ensures CutTag(CutDigest(name)) == Tagged(name, "latest")
  {
    FindNone(name, '@');
    UntaggedIsNotCut(name, "latest");
  }

  /** Leaving the tag out means "latest". */
  lemma NoTagIsLatest(name: string)
    requires Untagged(name) && !IsLocalID(name) && !IsLocalID(name + ":latest")
    ensures ParseReference(name) == ParseReference(name + ":latest")
    ensures ParseReference(name).Ok?
  {
    CutUntagged(name);
    assert CutTag(CutDigest(name + ":latest")) == Tagged(name, "latest") by {
      assert ":latest" == ":" + "latest" && name + ":latest" == name + ":" + "latest";
      CutsAtTheTag(name, "latest");
    }
  }

  /** A pinned digest is cut off; with it goes the default tag, so a name with a digest and no tag is refused. */
  lemma PinnedDigest(name: string, tag: string, digest: string)
    requires '@' !in name && TagText(tag) && !IsLocalID(name + ":" + tag)
    requires !IsLocalID(name + ":" + tag + "@" + digest)
    ensures ParseReference(name + ":" + tag + "@" + digest) == ParseReference(name + ":" + tag)
  {
    FindIn(name + ":" + tag, '@', digest);
    CutsTag(name, "", tag);
    CutsAtTheTag(name, tag);
  }

  lemma DigestOnlyIsRefused(name: string, digest: string)
    requires Untagged(name)
    ensures ParseReference(name + "@" + digest) == Failed
  {
    FindIn(name, '@', digest);
    UntaggedIsNotCut(name, "");
  }

  // ---- Tags and digests of one repository meet under one key ---------------------------------------------

  /** The names for which the two normalisations disagree: Hub under its real host, or Hub named twice. */
  predicate Misnamed(name: string) {
    "registry-1.docker.io/" <= name || "docker.io/index.docker.io/" <= name
  }

  /** The key of name:tag, as a function of the name alone. */
  function KeyOfName(name: string): string { RepoKey(Canonical(WithRegistry(name, ""))) }

  lemma {:induction false} KeyOfTagged(name: string, tag: string)
    requires '@' !in name && TagText(tag) && !IsLocalID(name + ":" + tag)
    ensures ParseReference(name + ":" + tag).Ok? && ParseReference(name + ":" + tag).value.tag == tag
    ensures RepoKey(ParseReference(name + ":" + tag).value) == KeyOfName(name)
  {
    hide IsLocalID, CutTag, CutDigest, Canonical, WithRegistry, KeyOfName, RepoKey;
    CutsAtTheTag(name, tag);
    KeyIgnoresTag(name, tag);
    PlacingKeepsTheTag(name, tag);
  }

  lemma DigestIsSplitOff(name: string, digest: string)
    requires '@' !in name
    ensures NormalizeRepoDigest(name + "@" + digest) == (NormalName(name), digest)
  {
    hide NormalName;
    FindIn(name, '@', digest);
  }

  lemma KeyIgnoresTag(name: string, tag: string)
    ensures RepoKey(Canonical(WithRegistry(name, tag))) == KeyOfName(name)
  {
  }

  lemma PrefixHasSlash(name: string, head: string)
    ensures head + "/" <= name ==> '/' in name
  {
    if head + "/" <= name { assert name[|head|] == '/'; }
  }

  lemma LibraryKey(name: string)
    ensures TrimPrefix("library/" + name, "library/") == name
  {
    assert ("library/" + name)[8..] == name;
  }

  lemma NoSlashKey(name: string)
    requires '/' !in name
    ensures KeyOfName(name) == name
  {
    FindNone(name, '/');
    LibraryKey(name);
  }

  lemma NoSlashNormal(name: string)
    requires '/' !in name
    ensures NormalName(name) == name && !Misnamed(name)
  {
    PrefixHasSlash(name, "docker.io");
    PrefixHasSlash(name, "index.docker.io");
    PrefixHasSlash(name, "library");
    PrefixHasSlash(name, HUB);
  }

  lemma {:induction false} HostKey(name: string, host: string, rest: string)
    requires '/' !in host && name == host + "/" + rest
    ensures KeyOfName(name) ==
            if host == HUB || host == "docker.io" || host == "index.docker.io" then TrimPrefix(rest, "library/")
            else if LooksLikeRegistry(host) then name
            else TrimPrefix(name, "library/")
  {
    FindIn(host, '/', rest);
    assert HUB[10] == '.' && "docker.io"[6] == '.' && "index.docker.io"[5] == '.';
    if '/' !in rest {
      PrefixHasSlash(rest, "library");
      LibraryKey(rest);
    }
  }

  lemma HostNormal(name: string, host: string, rest: string)
    requires '/' !in host && name == host + "/" + rest
    ensures NormalName(name) ==
            if host == "docker.io" then TrimPrefix(TrimPrefix(rest, "index.docker.io/"), "library/")
            else if host == "index.docker.io" then TrimPrefix(rest, "library/")
            else TrimPrefix(name, "library/")
  {
    PrefixIsHead(name, '/', "docker.io", host, rest);
    PrefixIsHead(name, '/', "index.docker.io", host, rest);
  }

  lemma NamedTwice(name: string, host: string, rest: string)
    requires '/' !in host && name == host + "/" + rest
    ensures "docker.io/" + "index.docker.io/" <= name <==> host == "docker.io" && "index.docker.io/" <= rest
  {
    PrefixIsHead(name, '/', "docker.io", host, rest);
    if host == "docker.io" {
      LongerPrefix("docker.io/", "index.docker.io/", rest);
    } else {
      ShorterPrefix("docker.io/", "index.docker.io/", name);
    }
  }

  lemma HostMisnamed(name: string, host: string, rest: string)
    requires '/' !in host && name == host + "/" + rest
    ensures Misnamed(name) <==> host == HUB || (host == "docker.io" && "index.docker.io/" <= rest)
  {
    PrefixIsHead(name, '/', HUB, host, rest);
    NamedTwice(name, host, rest);
    assert "docker.io/index.docker.io/" == "docker.io/" + "index.docker.io/";
  }

  lemma NotLibrary(name: string, host: string, rest: string)
    requires '/' !in host && name == host + "/" + rest && LooksLikeRegistry(host)
    ensures TrimPrefix(name, "library/") == name
  {
    PrefixIsHead(name, '/', "library", host, rest);
  }

  /** Which of the three trimmings disagree: compared by length where they do. */
  lemma TrimmingsMeet(name: string, host: string, rest: string)
    requires name == host + "/" + rest
    requires TrimPrefix(name, "library/") == name
    ensures TrimPrefix(rest, "library/") != name
    ensures TrimPrefix(rest, "library/") == TrimPrefix(TrimPrefix(rest, "index.docker.io/"), "library/")
            <==> !("index.docker.io/" <= rest)
  {
    if "index.docker.io/" <= rest {
      assert rest[0] == 'i';
      assert !("library/" <= rest);
    }
  }

  /** The key and the digest's name of host/rest, given what each trimming makes of it. */
  lemma CompareKeys(key: string, normal: string, name: string, host: string, rest: string)
    requires name == host + "/" + rest && TrimPrefix(name, "library/") == name
    requires key ==
             if host == HUB || host == "docker.io" || host == "index.docker.io" then TrimPrefix(rest, "library/")
             else name
    requires normal ==
             if host == "docker.io" then TrimPrefix(TrimPrefix(rest, "index.docker.io/"), "library/")
             else if host == "index.docker.io" then TrimPrefix(rest, "library/")
             else name
    ensures key == normal <==> !(host == HUB || (host == "docker.io" && "index.docker.io/" <= rest))
  {
    TrimmingsMeet(name, host, rest);
  }

  lemma PlainHost(host: string)
    requires !LooksLikeRegistry(host)
    ensures host != HUB && host != "docker.io" && host != "index.docker.io"
  {
    assert HUB[10] == '.' && "docker.io"[6] == '.' && "index.docker.io"[5] == '.';
  }

  lemma {:induction false} SlashKey(name: string, host: string, rest: string)
    requires '/' !in host && name == host + "/" + rest
    ensures KeyOfName(name) == NormalName(name) <==> !Misnamed(name)
  {
    HostKey(name, host, rest);
    HostNormal(name, host, rest);
    HostMisnamed(name, host, rest);
    if LooksLikeRegistry(host) {
      NotLibrary(name, host, rest);
      CompareKeys(KeyOfName(name), NormalName(name), name, host, rest);
    } else {
      PlainHost(host);
    }
  }

  lemma {:induction false} NameKey(name: string)
    ensures KeyOfName(name) == NormalName(name) <==> !Misnamed(name)
  {
    if '/' in name {
      CutAt(name, '/');
      SlashKey(name, name[..Find(name, '/')], name[Find(name, '/') + 1..]);
    } else {
      NoSlashKey(name);
      NoSlashNormal(name);
    }
  }

  /** name:tag and name@digest meet under the same key exactly when the name is not one of the misnamed Hub
      repositories. */
  lemma {:induction false} TagAndDigestShareAKey(name: string, tag: string, digest: string)
    requires '@' !in name && TagText(tag) && !IsLocalID(name + ":" + tag)
    ensures ParseReference(name + ":" + tag).Ok? && ParseReference(name + ":" + tag).value.tag == tag
    ensures RepoKey(ParseReference(name + ":" + tag).value) == NormalizeRepoDigest(name + "@" + digest).0
            <==> !Misnamed(name)
    ensures NormalizeRepoDigest(name + "@" + digest).1 == digest
  {
    hide IsLocalID, ParseReference, RepoKey, KeyOfName, NormalName, NormalizeRepoDigest, Misnamed, TagText;
    KeyOfTagged(name, tag);
    DigestIsSplitOff(name, digest);
    NameKey(name);
  }
}
