/** Image references as text: digests, tags and the trusted repository part. */
module ImageRefs {
  predicate IsLowerHex(c: char) {
    '0' <= c <= '9' || 'a' <= c <= 'f'
  }

  /** sha256: followed by 64 lowercase hexadecimal characters. */
  predicate IsDigest(s: string) {
    |s| == 71 && s[..7] == "sha256:" && forall i :: 7 <= i < 71 ==> IsLowerHex(s[i])
  }

  function IndexOf(s: string, c: char): (i: int)
    ensures -1 <= i < |s|
    ensures i >= 0 ==> s[i] == c && c !in s[..i]
    ensures i == -1 <==> c !in s
  {
    if s == "" then -1
    else if s[0] == c then 0
    else
      var rest := IndexOf(s[1..], c);
      assert s == [s[0]] + s[1..];
      if rest == -1 then -1
      else
        assert s[..rest + 1] == [s[0]] + s[1..][..rest];
        rest + 1
  }

  function LastIndexOf(s: string, c: char): (i: int)
    ensures -1 <= i < |s|
    ensures i >= 0 ==> s[i] == c && c !in s[i + 1..]
    ensures i == -1 <==> c !in s
  {
    if s == "" then -1
    else if s[|s| - 1] == c then
      |s| - 1
    else
      var front := s[..|s| - 1];
      var i := LastIndexOf(front, c);
      assert s == front + [s[|s| - 1]];
      if i == -1 then -1
      else
        assert s[i + 1..] == front[i + 1..] + [s[|s| - 1]];
        i
  }

  /** The text around the first separator. */
  datatype Pieces = Pieces(before: string, after: string, found: bool)

  function Cut(s: string, c: char): (p: Pieces)
    ensures p.before <= s && c !in p.before
  {
    var i := IndexOf(s, c);
    if i == -1 then Pieces(s, "", false) else Pieces(s[..i], s[i + 1..], true)
  }

  /** Drops a tag, but not a registry port. */
  function StripTag(repository: string): string {
    var colon := LastIndexOf(repository, ':');
    if colon > LastIndexOf(repository, '/') then repository[..colon] else repository
  }

  /** The digest reference of one import event, or "" when it has none. */
  function ImportedImage(reference: string, image: string): string {
    var pieces := Cut(reference, '@');
    var digest := if image != "" then image else pieces.after;
    if pieces.before == "" || !IsDigest(digest) then "" else StripTag(pieces.before) + "@" + digest
  }

  /** A repository part that is nothing but a tag. */
  predicate OnlyTag(repository: string) {
    repository != "" && repository[0] == ':' && ':' !in repository[1..] && '/' !in repository
  }

  lemma CutJoined(repository: string, digest: string)
    requires '@' !in repository
    ensures Cut(repository + "@" + digest, '@') == Pieces(repository, digest, true)
  {
    var s := repository + "@" + digest;
    assert s[|repository|] == '@' && s[..|repository|] == repository;
    var i := IndexOf(s, '@');
    assert forall k :: 0 <= k < |repository| ==> s[k] == repository[k];
    assert forall k :: 0 <= k < i ==> s[k] == s[..i][k];
    assert i == |repository|;
    assert s[|repository| + 1..] == digest;
  }

  /** An imported image is the repository it was imported from, without its tag, at the
      imported digest, which is 64 lowercase hexadecimal characters; it names a
      repository unless the event's repository part is nothing but a tag. */
  lemma ImportedImageIsPinned(reference: string, image: string)
    requires ImportedImage(reference, image) != ""
    ensures var r := ImportedImage(reference, image);
            var source := Cut(reference, '@');
            var pinned := Cut(r, '@');
            && pinned.found && IsDigest(pinned.after)
            && pinned.after == (if image != "" then image else source.after)
            && pinned.before == StripTag(source.before) && '@' !in pinned.before
            && pinned.before <= reference
            && (pinned.before == "" <==> OnlyTag(source.before))
  {
    var source := Cut(reference, '@');
    var digest := if image != "" then image else source.after;
    var repository := StripTag(source.before);
    assert repository <= source.before <= reference;
    assert '@' !in source.before;
    assert '@' !in repository;
    CutJoined(repository, digest);
    StripTagEmptiesOnlyTags(source.before);
  }

  /** An event is usable exactly with a repository part and a digest, its image field
      taking precedence over its reference. */
  lemma ImportedImageExactly(reference: string, image: string)
    ensures ImportedImage(reference, image) != "" <==>
              && Cut(reference, '@').before != ""
              && IsDigest(if image == "" then Cut(reference, '@').after else image)
  {
  }

  lemma StripTagEmptiesOnlyTags(repository: string)
    requires repository != ""
    ensures StripTag(repository) == "" <==> OnlyTag(repository)
  {
    var colon := LastIndexOf(repository, ':');
    assert forall k :: 0 < k < |repository| ==> repository[k] == repository[1..][k - 1];
  }

  /** The degenerate events for which the reference names no repository. */
  lemma RepositoryCanBeEmpty(reference: string, digest: string)
    requires IsDigest(digest) && OnlyTag(reference) && '@' !in reference
    ensures ImportedImage(reference, digest) == "@" + digest
  {
    StripTagEmptiesOnlyTags(reference);
  }

  /** Registry and repository of a reference without digest. */
  function NamedRepository(named: string): (base: string)
    ensures base <= named
  {
    var slash := LastIndexOf(named, '/');
    if slash == -1 then named
    else
      var colon := IndexOf(named[slash..], ':');
      if colon == -1 then named else named[..slash + colon]
  }

  /** Registry and repository of an image reference, without tag and digest. */
  function RepoBase(image: string): (base: string)
    ensures base <= image && '@' !in base
  {
    NamedRepository(Cut(image, '@').before)
  }

  /** A pinned digest replaces tag and digest of the configured source. */
  function PinnedImage(source: string, digest: string): string {
    RepoBase(source) + "@" + digest
  }

  lemma PinnedImageKeepsRepository(source: string, digest: string)
    requires IsDigest(digest)
    ensures var pinned := Cut(PinnedImage(source, digest), '@');
            pinned.before == RepoBase(source) && pinned.before <= source && pinned.after == digest
  {
    CutJoined(RepoBase(source), digest);
  }

  // ----- What is stripped, and what is not -----

  lemma IndexIs(s: string, c: char, i: nat)
    requires i < |s| && s[i] == c && c !in s[..i]
    ensures IndexOf(s, c) == i
  {
    var j := IndexOf(s, c);
    assert c in s;
    assert forall k :: 0 <= k < i ==> s[k] == s[..i][k];
    assert forall k :: 0 <= k < j ==> s[k] == s[..j][k];
  }

  lemma LastIndexIs(s: string, c: char, i: nat)
    requires i < |s| && s[i] == c && c !in s[i + 1..]
    ensures LastIndexOf(s, c) == i
  {
    var j := LastIndexOf(s, c);
    assert c in s;
    assert forall k :: i < k < |s| ==> s[k] == s[i + 1..][k - i - 1];
    assert forall k :: j < k < |s| ==> s[k] == s[j + 1..][k - j - 1];
  }

  /** A digest is the algorithm, a colon, and 64 hexadecimal digits. */
  lemma DigestExactly(s: string)
    ensures IsDigest(s) <==>
              exists hex: string :: s == "sha256:" + hex && |hex| == 64 && forall c :: c in hex ==>
                  c in "0123456789abcdef"
  {
    if IsDigest(s) {
      var hex := s[7..];
      assert s == "sha256:" + hex;
      forall c | c in hex
        ensures c in "0123456789abcdef"
      {
        var i :| 0 <= i < |hex| && hex[i] == c;
        assert IsLowerHex(s[7 + i]);
        HexAlphabet(c);
      }
    }
    if hex: string :| s == "sha256:" + hex && |hex| == 64 && forall c :: c in hex ==> c in "0123456789abcdef" {
      forall i | 7 <= i < 71
        ensures IsLowerHex(s[i])
      {
        assert s[i] == hex[i - 7];
        HexAlphabet(s[i]);
      }
    }
  }

  lemma HexAlphabet(c: char)
    ensures IsLowerHex(c) <==> c in "0123456789abcdef"
  {
    var digits := "0123456789abcdef";
    if '0' <= c <= '9' {
      assert digits[c as int - '0' as int] == c;
    } else if 'a' <= c <= 'f' {
      assert digits[10 + c as int - 'a' as int] == c;
    }
  }

  /** A tag is stripped from any repository. */
  lemma TagIsStripped(repository: string, tag: string)
    requires ':' !in tag && '/' !in tag
    ensures StripTag(repository + ":" + tag) == repository
  {
    var s := repository + ":" + tag;
    var n := |repository|;
    assert s[n] == ':' && s[n + 1..] == tag && s[..n] == repository;
    LastIndexIs(s, ':', n);
    assert forall k :: n < k < |s| ==> s[k] == tag[k - n - 1];
  }

  /** A registry port is not a tag. */
  lemma PortIsKept(host: string, path: string)
    requires ':' !in path
    ensures StripTag(host + "/" + path) == host + "/" + path
  {
    var s := host + "/" + path;
    var n := |host|;
    assert s[n] == '/' && s[n + 1..] == path;
    assert forall k :: n < k < |s| ==> s[k] == path[k - n - 1];
    var slash := LastIndexOf(s, '/');
    assert forall k :: slash < k < |s| ==> s[k] == s[slash + 1..][k - slash - 1];
  }

  /** The configured source loses its tag and digest, but not its port, if it names a
      registry or a namespace; a bare name keeps its tag. */
  lemma RepoBaseExactly(host: string, name: string, tag: string, rest: string)
    requires '@' !in host && forall c :: c in name ==> c !in "/:@"
    requires '/' !in tag && '@' !in tag
    ensures RepoBase(host + "/" + name) == host + "/" + name
    ensures RepoBase(host + "/" + name + ":" + tag) == host + "/" + name
    ensures RepoBase(host + "/" + name + "@" + rest) == host + "/" + name
    ensures RepoBase(host + "/" + name + ":" + tag + "@" + rest) == host + "/" + name
  {
    var base := host + "/" + name;
    assert '@' in "/:@" && '@' !in base;
    NamedBase(host, name, "");
    NamedBase(host, name, ":" + tag);
    assert base + "" == base && base + (":" + tag) == base + ":" + tag;
    DigestIsCut(base, rest);
    DigestIsCut(base + ":" + tag, rest);
  }

  lemma DigestIsCut(named: string, rest: string)
    requires '@' !in named
    ensures RepoBase(named) == NamedRepository(named) && RepoBase(named + "@" + rest) == NamedRepository(named)
  {
    CutNothing(named);
    CutJoined(named, rest);
  }

  lemma CutNothing(s: string)
    requires '@' !in s
    ensures Cut(s, '@').before == s
  {
  }

  lemma NamedBase(host: string, name: string, suffix: string)
    requires forall c :: c in name ==> c !in "/:@"
    requires '/' !in suffix && (suffix == "" || suffix[0] == ':')
    ensures NamedRepository(host + "/" + name + suffix) == host + "/" + name
  {
    var named := host + "/" + name + suffix;
    var n := |host|;
    assert named[n] == '/' && named[n + 1..] == name + suffix;
    assert '/' in "/:@" && ':' in "/:@";
    LastIndexIs(named, '/', n);
    var tail := named[n..];
    assert tail == "/" + name + suffix;
    if suffix == "" {
      assert ':' !in tail;
    } else {
      var m := 1 + |name|;
      assert tail[m] == ':' && tail[..m] == "/" + name;
      IndexIs(tail, ':', m);
      assert named[..n + m] == host + "/" + name;
    }
  }

  /** A source without any slash keeps its tag. */
  lemma BareNameKeepsTag(image: string)
    requires '/' !in image && '@' !in image
    ensures RepoBase(image) == image
  {
  }
}
