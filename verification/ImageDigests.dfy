/** Update checks: the digests known locally, indexed by repository and by tag, against the registry's. */
module ImageDigests {
  import opened Common
  import opened Reference

  datatype ImageSummary = ImageSummary(repoTags: seq<string>, repoDigests: seq<string>)

  /** One append to the index. */
  datatype Entry = Entry(key: string, digest: string)

  type Index = map<string, seq<string>>

  function Get(index: Index, key: string): seq<string> { if key in index then index[key] else [] }

  function RepoEntries(repoDigests: seq<string>): seq<Entry> {
    if repoDigests == [] then []
    else
      var (repo, digest) := NormalizeRepoDigest(repoDigests[|repoDigests| - 1]);
      var front := RepoEntries(repoDigests[..|repoDigests| - 1]);
      if repo != "" then front + [Entry(repo, digest)] else front
  }

  function TagKey(r: Reference): string { RepoKey(r) + ":" + r.tag }

  function KeyEntries(key: string, repoDigests: seq<string>): seq<Entry> {
    if repoDigests == [] then []
    else
      var digest := NormalizeRepoDigest(repoDigests[|repoDigests| - 1]).1;
      var front := KeyEntries(key, repoDigests[..|repoDigests| - 1]);
      if digest != "" then front + [Entry(key, digest)] else front
  }

  function TagEntry(t: string, repoDigests: seq<string>): seq<Entry> {
    match ParseReference(t)
    case Ok(ref) => KeyEntries(TagKey(ref), repoDigests)
    case Failed => []
  }

  function TagEntries(repoTags: seq<string>, repoDigests: seq<string>): seq<Entry> {
    if repoTags == [] then []
    else TagEntries(repoTags[..|repoTags| - 1], repoDigests) + TagEntry(repoTags[|repoTags| - 1], repoDigests)
  }

  function Entries(local: seq<ImageSummary>): seq<Entry> {
    if local == [] then []
    else
      var img := local[|local| - 1];
      Entries(local[..|local| - 1]) + RepoEntries(img.repoDigests) + TagEntries(img.repoTags, img.repoDigests)
  }

  /** The digests entered under a key, oldest first. */
  function At(es: seq<Entry>, key: string): seq<string> {
    if es == [] then []
    else
      var front := At(es[..|es| - 1], key);
      if es[|es| - 1].key == key then front + [es[|es| - 1].digest] else front
  }

  ghost predicate Indexes(index: Index, es: seq<Entry>) {
    forall key :: Get(index, key) == At(es, key)
  }

  lemma IndexesMore(index: Index, es: seq<Entry>, e: Entry)
    requires Indexes(index, es)
    ensures Indexes(index[e.key := Get(index, e.key) + [e.digest]], es + [e])
  {
    var more := index[e.key := Get(index, e.key) + [e.digest]];
    forall key ensures Get(more, key) == At(es + [e], key) {
      AtSnoc(es, e, key);
    }
  }

  lemma AtSnoc(es: seq<Entry>, e: Entry, key: string)
    ensures At(es + [e], key) == if e.key == key then At(es, key) + [e.digest] else At(es, key)
  {
    assert (es + [e])[..|es|] == es;
  }

  method IndexLocalDigests(local: seq<ImageSummary>) returns (out: Index)
    ensures Indexes(out, Entries(local))
  {
    out := map[];
    for i := 0 to |local|
      invariant Indexes(out, Entries(local[..i]))
    {
      assert local[..i + 1][..i] == local[..i];
      out := AddRepos(out, Entries(local[..i]), local[i].repoDigests);
      out := AddTags(out, Entries(local[..i]) + RepoEntries(local[i].repoDigests), local[i]);
    }
    assert local[..|local|] == local;
  }

  method AddRepos(index: Index, ghost es: seq<Entry>, repoDigests: seq<string>) returns (out: Index)
    requires Indexes(index, es)
    ensures Indexes(out, es + RepoEntries(repoDigests))
  {
    hide ParseReference, NormalizeRepoDigest, Get, Indexes;
    out := index;
    assert es + [] == es;
    for i := 0 to |repoDigests|
      invariant Indexes(out, es + RepoEntries(repoDigests[..i]))
    {
      assert repoDigests[..i + 1][..i] == repoDigests[..i];
      var (repo, digest) := NormalizeRepoDigest(repoDigests[i]);
      if repo != "" {
        ghost var front := RepoEntries(repoDigests[..i]);
        IndexesMore(out, es + front, Entry(repo, digest));
        assert es + (front + [Entry(repo, digest)]) == es + front + [Entry(repo, digest)];
        out := out[repo := Get(out, repo) + [digest]];
      }
    }
    assert repoDigests[..|repoDigests|] == repoDigests;
  }

  lemma TagsOneMore(es: seq<Entry>, repoTags: seq<string>, repoDigests: seq<string>, i: nat)
    requires i < |repoTags|
    ensures es + TagEntries(repoTags[..i + 1], repoDigests)
         == (es + TagEntries(repoTags[..i], repoDigests)) + TagEntry(repoTags[i], repoDigests)
  {
    hide TagEntry;
    assert repoTags[..i + 1][..i] == repoTags[..i];
  }

  method AddTags(index: Index, ghost es: seq<Entry>, img: ImageSummary) returns (out: Index)
    requires Indexes(index, es)
    ensures Indexes(out, es + TagEntries(img.repoTags, img.repoDigests))
  {
    hide ParseReference, KeyEntries, TagKey, Indexes;
    out := index;
    assert es + TagEntries(img.repoTags[..0], img.repoDigests) == es;
    for i := 0 to |img.repoTags|
      invariant Indexes(out, es + TagEntries(img.repoTags[..i], img.repoDigests))
    {
      ghost var front := es + TagEntries(img.repoTags[..i], img.repoDigests);
      TagsOneMore(es, img.repoTags, img.repoDigests, i);
      var ref := ParseReference(img.repoTags[i]);
      if ref.Failed? {
        assert front + [] == front;
        continue;
      }
      out := AddKey(out, front, TagKey(ref.value), img.repoDigests);
    }
    assert img.repoTags[..|img.repoTags|] == img.repoTags;
  }

  method AddKey(index: Index, ghost es: seq<Entry>, key: string, repoDigests: seq<string>) returns (out: Index)
    requires Indexes(index, es)
    ensures Indexes(out, es + KeyEntries(key, repoDigests))
  {
    hide ParseReference, NormalizeRepoDigest, Get, Indexes;
    out := index;
    assert es + [] == es;
    for i := 0 to |repoDigests|
      invariant Indexes(out, es + KeyEntries(key, repoDigests[..i]))
    {
      assert repoDigests[..i + 1][..i] == repoDigests[..i];
      var digest := NormalizeRepoDigest(repoDigests[i]).1;
      if digest != "" {
        ghost var front := KeyEntries(key, repoDigests[..i]);
        IndexesMore(out, es + front, Entry(key, digest));
        assert es + (front + [Entry(key, digest)]) == es + front + [Entry(key, digest)];
        out := out[key := Get(out, key) + [digest]];
      }
    }
    assert repoDigests[..|repoDigests|] == repoDigests;
  }

  // ---- One image's check ---------------------------------------------------------------------------------

  /** What the registry answers: the tag's digests, or why it gave none. */
  datatype Remote = Manifest(primary: string, children: set<string>) | Refused(why: string)

  datatype CheckError = NoError | LocalBuild | NoLocalDigest | RegistryError(why: string) | Cancelled

  datatype CheckResult = CheckResult(image: string, localDigest: string, remoteDigest: string,
                                     updateAvailable: bool, error: CheckError)

  predicate Has(m: Remote, digest: string)
    requires m.Manifest?
  {
    digest == m.primary || digest in m.children
  }

  function FirstKnown(candidates: seq<string>, m: Remote): Option<string>
    requires m.Manifest?
  {
    if candidates == [] then None
    else if Has(m, candidates[0]) then Some(candidates[0])
    else FirstKnown(candidates[1..], m)
  }

  function Candidates(index: Index, ref: Reference): seq<string> {
    if |Get(index, TagKey(ref))| == 0 then Get(index, RepoKey(ref)) else Get(index, TagKey(ref))
  }

  function Failure(image: string, error: CheckError): CheckResult { CheckResult(image, "", "", false, error) }

  /** The answer for an image, given the index and what the registry says when it is asked. */
  function Checked(image: string, index: Index, remote: Remote): CheckResult {
    match ParseReference(image)
    case Failed => Failure(image, LocalBuild)
    case Ok(ref) =>
      var candidates := Candidates(index, ref);
      if |candidates| == 0 then Failure(image, NoLocalDigest)
      else if remote.Refused? then Failure(image, RegistryError(remote.why))
      else
        match FirstKnown(candidates, remote)
        case Some(d) => CheckResult(image, d, remote.primary, false, NoError)
        case None => CheckResult(image, candidates[0], remote.primary, true, NoError)
  }

  method CheckOne(image: string, index: Index, remote: Remote) returns (res: CheckResult)
    ensures res == Checked(image, index, remote)
  {
    hide ParseReference, TagKey, RepoKey, Has;
    res := CheckResult(image, "", "", false, NoError);
    var parsed := ParseReference(image);
    if parsed.Failed? { return res.(error := LocalBuild); }
    var ref := parsed.value;
    var candidates := Get(index, TagKey(ref));
    if |candidates| == 0 { candidates := Get(index, RepoKey(ref)); }
    if |candidates| == 0 { return res.(error := NoLocalDigest); }
    if remote.Refused? { return res.(error := RegistryError(remote.why)); }
    res := res.(remoteDigest := remote.primary, localDigest := candidates[0], updateAvailable := true);
    for i := 0 to |candidates|
      invariant res == CheckResult(image, candidates[0], remote.primary, true, NoError)
      invariant FirstKnown(candidates, remote) == FirstKnown(candidates[i..], remote)
    {
      if Has(remote, candidates[i]) {
        res := res.(updateAvailable := false, localDigest := candidates[i]);
        break;
      }
    }
  }

  // ---- What a check finds --------------------------------------------------------------------------------

  lemma {:induction false} EnteredIsAt(es: seq<Entry>, e: Entry)
    requires e in es
    ensures e.digest in At(es, e.key)
  {
    if es[|es| - 1] != e {
      assert e in es[..|es| - 1];
      EnteredIsAt(es[..|es| - 1], e);
    }
  }

  lemma {:induction false} KeyIsEntered(key: string, repoDigests: seq<string>, rd: string)
    requires rd in repoDigests && NormalizeRepoDigest(rd).1 != ""
    ensures Entry(key, NormalizeRepoDigest(rd).1) in KeyEntries(key, repoDigests)
  {
    if repoDigests[|repoDigests| - 1] != rd {
      KeyIsEntered(key, repoDigests[..|repoDigests| - 1], rd);
    }
  }

  lemma {:induction false} RepoIsEntered(repoDigests: seq<string>, rd: string)
    requires rd in repoDigests && NormalizeRepoDigest(rd).0 != ""
    ensures Entry(NormalizeRepoDigest(rd).0, NormalizeRepoDigest(rd).1) in RepoEntries(repoDigests)
  {
    if repoDigests[|repoDigests| - 1] != rd {
      RepoIsEntered(repoDigests[..|repoDigests| - 1], rd);
    }
  }

  lemma {:induction false} TagIsEntered(repoTags: seq<string>, repoDigests: seq<string>, t: string, rd: string)
    requires t in repoTags && ParseReference(t).Ok?
    requires rd in repoDigests && NormalizeRepoDigest(rd).1 != ""
    ensures Entry(TagKey(ParseReference(t).value), NormalizeRepoDigest(rd).1) in TagEntries(repoTags, repoDigests)
  {
    if repoTags[|repoTags| - 1] == t {
      KeyIsEntered(TagKey(ParseReference(t).value), repoDigests, rd);
    } else {
      TagIsEntered(repoTags[..|repoTags| - 1], repoDigests, t, rd);
    }
  }

  lemma {:induction false} ImageIsEntered(local: seq<ImageSummary>, img: ImageSummary, e: Entry)
    requires img in local && (e in RepoEntries(img.repoDigests) || e in TagEntries(img.repoTags, img.repoDigests))
    ensures e in Entries(local)
  {
    if local[|local| - 1] != img {
      ImageIsEntered(local[..|local| - 1], img, e);
    }
  }

  lemma {:induction false} FirstKnownIs(candidates: seq<string>, m: Remote)
    requires m.Manifest?
    ensures FirstKnown(candidates, m) == None <==> forall d | d in candidates :: !Has(m, d)
    ensures FirstKnown(candidates, m).Some? ==>
              FirstKnown(candidates, m).value in candidates && Has(m, FirstKnown(candidates, m).value)
  {
    if candidates != [] && !Has(m, candidates[0]) {
      FirstKnownIs(candidates[1..], m);
      assert candidates == [candidates[0]] + candidates[1..];
    }
  }

  /** A container started from name:tag is not called undigested when some local image carries name@digest,
      unless the name is one whose two spellings disagree. */
  lemma {:induction false} LocalDigestIsFound(
    local: seq<ImageSummary>, index: Index, img: ImageSummary, name: string, digest: string, tag: string,
    remote: Remote)
    requires Indexes(index, Entries(local))
    requires img in local && name + "@" + digest in img.repoDigests
    requires NormalizeRepoDigest(name + "@" + digest).0 != ""
    requires '@' !in name && TagText(tag) && !IsLocalID(name + ":" + tag) && !Misnamed(name)
    ensures var error := Checked(name + ":" + tag, index, remote).error;
            error != LocalBuild && error != NoLocalDigest
  {
    TagAndDigestShareAKey(name, tag, digest);
    RepoIsCandidate(local, index, img, name + "@" + digest);
    CandidatesAreChecked(name + ":" + tag, index, remote);
  }

  lemma CandidatesAreChecked(image: string, index: Index, remote: Remote)
    requires ParseReference(image).Ok? && Get(index, RepoKey(ParseReference(image).value)) != []
    ensures Checked(image, index, remote).error != LocalBuild
    ensures Checked(image, index, remote).error != NoLocalDigest
  {
  }

  lemma {:induction false} RepoIsCandidate(local: seq<ImageSummary>, index: Index, img: ImageSummary, rd: string)
    requires Indexes(index, Entries(local)) && img in local && rd in img.repoDigests
    requires NormalizeRepoDigest(rd).0 != ""
    ensures NormalizeRepoDigest(rd).1 in Get(index, NormalizeRepoDigest(rd).0)
  {
    var e := Entry(NormalizeRepoDigest(rd).0, NormalizeRepoDigest(rd).1);
    RepoIsEntered(img.repoDigests, rd);
    ImageIsEntered(local, img, e);
    EnteredIsAt(Entries(local), e);
  }

  /** An update is announced exactly when the registry's manifest has none of the local candidates. */
  lemma UpdateExactlyWhen(image: string, index: Index, remote: Remote)
    requires ParseReference(image).Ok? && remote.Manifest?
    ensures var candidates := Candidates(index, ParseReference(image).value);
            Checked(image, index, remote).updateAvailable <==>
            candidates != [] && forall d | d in candidates :: !Has(remote, d)
  {
    FirstKnownIs(Candidates(index, ParseReference(image).value), remote);
  }

  /** No false alarm: a local image with the same normal form as the checked one, holding a digest the registry
      still serves under the tag, rules an update out. */
  lemma {:induction false} UpToDateIsRecognised(
    local: seq<ImageSummary>, index: Index, img: ImageSummary, image: string, t: string, rd: string, remote: Remote)
    requires Indexes(index, Entries(local)) && img in local
    requires t in img.repoTags && ParseReference(t).Ok? && ParseReference(image) == ParseReference(t)
    requires rd in img.repoDigests && NormalizeRepoDigest(rd).1 != ""
    requires remote.Manifest? && Has(remote, NormalizeRepoDigest(rd).1)
    ensures var res := Checked(image, index, remote);
            res.error == NoError && !res.updateAvailable && Has(remote, res.localDigest)
  {
    var ref, digest := ParseReference(t).value, NormalizeRepoDigest(rd).1;
    TagIsEntered(img.repoTags, img.repoDigests, t, rd);
    ImageIsEntered(local, img, Entry(TagKey(ref), digest));
    EnteredIsAt(Entries(local), Entry(TagKey(ref), digest));
    assert digest in Get(index, TagKey(ref));
    FirstKnownIs(Candidates(index, ref), remote);
  }

  /** What a check answers, case by case: which candidates it compares with what the registry serves, which of them it
      names, and why it may have no answer. */
  lemma {:induction false} AnswerOfACheck(image: string, index: Index, remote: Remote)
    ensures var res := Checked(image, index, remote);
      && res.image == image
      && (ParseReference(image).Failed? ==> res == CheckResult(image, "", "", false, LocalBuild))
      && (ParseReference(image).Ok? ==>
            var ref := ParseReference(image).value;
            var tagged, untagged := Get(index, RepoKey(ref) + ":" + ref.tag), Get(index, RepoKey(ref));
            var candidates := if tagged != [] then tagged else untagged;
            Answer(res, candidates, remote))
  {
    if ParseReference(image).Ok? {
      var ref := ParseReference(image).value;
      if remote.Manifest? { FirstKnownIsFirst(Candidates(index, ref), remote); }
    }
  }

  /** The registry's manifest carries the digest, itself or for one of its platforms. */
  predicate Serves(remote: Remote, digest: string)
    requires remote.Manifest?
  {
    digest == remote.primary || digest in remote.children
  }

  ghost predicate Answer(res: CheckResult, candidates: seq<string>, remote: Remote) {
    if candidates == [] then res == CheckResult(res.image, "", "", false, NoLocalDigest)
    else if remote.Refused? then res == CheckResult(res.image, "", "", false, RegistryError(remote.why))
    else
      && res.remoteDigest == remote.primary && res.error == NoError
      && (res.updateAvailable <==> forall i | 0 <= i < |candidates| :: !Serves(remote, candidates[i]))
      && (res.updateAvailable ==> res.localDigest == candidates[0])
      && (!res.updateAvailable ==>
            exists i :: 0 <= i < |candidates| && res.localDigest == candidates[i] && Serves(remote, candidates[i])
                        && forall j | 0 <= j < i :: !Serves(remote, candidates[j]))
  }

  lemma {:induction false} FirstKnownIsFirst(candidates: seq<string>, m: Remote)
    requires m.Manifest?
    ensures FirstKnown(candidates, m) == None <==> forall i | 0 <= i < |candidates| :: !Serves(m, candidates[i])
    ensures FirstKnown(candidates, m).Some? ==>
              exists i :: 0 <= i < |candidates| && FirstKnown(candidates, m).value == candidates[i]
                          && Serves(m, candidates[i]) && forall j | 0 <= j < i :: !Serves(m, candidates[j])
  {
    if candidates != [] && !Serves(m, candidates[0]) {
      var rest := candidates[1..];
      FirstKnownIsFirst(rest, m);
      assert forall i | 0 <= i < |rest| :: rest[i] == candidates[i + 1];
      if FirstKnown(rest, m).Some? {
        var i :| 0 <= i < |rest| && FirstKnown(rest, m).value == rest[i] && Serves(m, rest[i])
                 && forall j | 0 <= j < i :: !Serves(m, rest[j]);
        assert candidates[i + 1] == rest[i];
        forall j | 0 <= j < i + 1 ensures !Serves(m, candidates[j]) {
          if j > 0 { assert candidates[j] == rest[j - 1]; }
        }
      }
    }
  }

  // ---- What the index holds, and nothing else ------------------------------------------------------------

  /** The digest is what follows the at sign of one of the image's repository digests. */
  ghost predicate IsDigestOf(img: ImageSummary, digest: string) {
    exists rd :: rd in img.repoDigests && NormalizeRepoDigest(rd).1 == digest
  }

  /** An entry of one image: one of its digests, under the digest's own normal name or under a tag of the image. */
  ghost predicate IsEntryOf(img: ImageSummary, e: Entry) {
    || (exists rd :: rd in img.repoDigests && NormalizeRepoDigest(rd) == (e.key, e.digest))
    || (IsDigestOf(img, e.digest)
        && exists t :: t in img.repoTags && ParseReference(t).Ok? && TagKey(ParseReference(t).value) == e.key)
  }

  lemma {:induction false} RepoEntriesAre(repoDigests: seq<string>, e: Entry)
    requires e in RepoEntries(repoDigests)
    ensures exists rd :: rd in repoDigests && NormalizeRepoDigest(rd) == (e.key, e.digest)
  {
    var front, last := repoDigests[..|repoDigests| - 1], repoDigests[|repoDigests| - 1];
    if e in RepoEntries(front) {
      RepoEntriesAre(front, e);
      var rd :| rd in front && NormalizeRepoDigest(rd) == (e.key, e.digest);
      assert rd in repoDigests;
    } else {
      assert last in repoDigests && NormalizeRepoDigest(last) == (e.key, e.digest);
    }
  }

  lemma {:induction false} KeyEntriesAre(key: string, repoDigests: seq<string>, e: Entry)
    requires e in KeyEntries(key, repoDigests)
    ensures e.key == key && exists rd :: rd in repoDigests && NormalizeRepoDigest(rd).1 == e.digest
  {
    var front, last := repoDigests[..|repoDigests| - 1], repoDigests[|repoDigests| - 1];
    if e in KeyEntries(key, front) {
      KeyEntriesAre(key, front, e);
      var rd :| rd in front && NormalizeRepoDigest(rd).1 == e.digest;
      assert rd in repoDigests;
    } else {
      assert last in repoDigests;
    }
  }

  lemma {:induction false} TagEntriesAre(repoTags: seq<string>, repoDigests: seq<string>, e: Entry)
    requires e in TagEntries(repoTags, repoDigests)
    ensures exists rd :: rd in repoDigests && NormalizeRepoDigest(rd).1 == e.digest
    ensures exists t :: t in repoTags && ParseReference(t).Ok? && TagKey(ParseReference(t).value) == e.key
  {
    var front, last := repoTags[..|repoTags| - 1], repoTags[|repoTags| - 1];
    if e in TagEntries(front, repoDigests) {
      TagEntriesAre(front, repoDigests, e);
      var t :| t in front && ParseReference(t).Ok? && TagKey(ParseReference(t).value) == e.key;
      assert t in repoTags;
    } else {
      KeyEntriesAre(TagKey(ParseReference(last).value), repoDigests, e);
      assert last in repoTags;
    }
  }

  /** Nothing is filed that no local image gives. */
  lemma {:induction false} EntriesAreLocal(local: seq<ImageSummary>, e: Entry)
    requires e in Entries(local)
    ensures exists img :: img in local && IsEntryOf(img, e)
  {
    var front, last := local[..|local| - 1], local[|local| - 1];
    if e in Entries(front) {
      EntriesAreLocal(front, e);
      var img :| img in front && IsEntryOf(img, e);
      assert img in local;
    } else {
      assert last in local;
      if e in RepoEntries(last.repoDigests) {
        RepoEntriesAre(last.repoDigests, e);
      } else {
        TagEntriesAre(last.repoTags, last.repoDigests, e);
      }
    }
  }
}
