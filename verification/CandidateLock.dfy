/** The content-addressed lock that freezes one registry candidate binding. */
module CandidateLock {
  import opened Text

  /** JSON fields are `None` when the key is missing or the value has another type. */
  datatype Release = Release(id: Option<string>, nonceSha256: Option<string>, rest: string)

  datatype Source = Source(available: bool, value: Option<string>, rest: string)

  datatype Image = Image(digest: Option<string>, reference: Option<string>, rest: string)

  datatype Binding = Binding(
    kind: Option<string>, release: Option<Release>, source: Option<Source>, repository: Option<string>,
    imageDigest: Option<string>, images: Option<map<string, Image>>, rest: string)

  /** SHA-256 over canonical JSON, taken to be injective. */
  datatype Digest = Sha256(content: Binding)

  datatype Lock = Lock(
    schemaVersion: int, kind: Option<string>, generatedAt: string,
    release: Option<Release>, source: Option<Source>, bindingSha256: Option<Digest>,
    repository: Option<string>, imageDigest: Option<string>, images: Option<map<string, Image>>)

  /** What the checkout and the process environment say now. */
  datatype Now = Now(source: Source, release: Option<Release>)

  datatype Field = ReleaseField | SourceField | RepositoryField | DigestField | ImagesField

  datatype Reason =
    | BindingKind | ReleaseInvalid | OtherRelease | OtherSource | DigestInvalid | ImageSetIncomplete
    | ImageNotImmutable(role: string) | PrimaryDigestInconsistent
    | LockKind | HashChanged | FieldChanged(field: Field)

  const BINDING_KIND := "registry_candidate_binding"
  const LOCK_KIND := "release_candidate_lock"
  const INITIAL := "initial"
  const UPGRADE := "upgrade"

  predicate IsHex(s: string)
  {
    forall c :: c in s ==> '0' <= c <= '9' || 'a' <= c <= 'f'
  }

  /** `sha256:` and 64 hexadecimal digits. */
  predicate IsImageDigest(s: string)
  {
    |s| == 71 && s[..7] == "sha256:" && IsHex(s[7..])
  }

  predicate Plain(s: string)
  {
    s != "" && forall c :: c in s ==> !IsSpace(c) && c != ':' && c != '@'
  }

  /** `host[:port]/path`: since a path segment may hold slashes, one leading slash is all that is asked. */
  predicate IsImageName(s: string)
  {
    exists i, j :: 0 < i <= j < |s| - 1 && Plain(s[..i]) && IsPort(s[i..j]) && s[j] == '/' && Plain(s[j + 1..])
  }

  predicate IsPort(s: string)
  {
    s == "" || (|s| > 1 && s[0] == ':' && forall i :: 0 < i < |s| ==> '0' <= s[i] <= '9')
  }

  /** An immutable reference: a name, `@` and the image's own digest. */
  predicate Immutable(image: Image)
  {
    && image.digest.Some? && IsImageDigest(image.digest.value)
    && image.reference.Some?
    && var at := |image.reference.value| - 72;
       at >= 0 && image.reference.value[at..] == "@" + image.digest.value && IsImageName(image.reference.value[..at])
  }

  predicate ReleaseWellFormed(r: Option<Release>)
  {
    && r.Some?
    && r.value.id.Some? && r.value.id.value != ""
    && r.value.nonceSha256.Some? && |r.value.nonceSha256.value| == 64 && IsHex(r.value.nonceSha256.value)
  }

  predicate SameCheckout(s: Option<Source>, now: Source)
  {
    s.Some? && s.value.available && now.available && s.value.value == now.value
  }

  function ImagesOf(b: Binding): map<string, Image>
  {
    if b.images.Some? then b.images.value else map[]
  }

  predicate RoleImmutable(b: Binding, role: string)
  {
    role in ImagesOf(b) && Immutable(ImagesOf(b)[role])
  }

  /** What a binding must satisfy in the current checkout and release. */
  predicate ValidBinding(b: Binding, now: Now)
  {
    && b.kind == Some(BINDING_KIND)
    && ReleaseWellFormed(b.release) && (now.release.Some? ==> b.release == now.release)
    && SameCheckout(b.source, now.source)
    && b.imageDigest.Some? && IsImageDigest(b.imageDigest.value)
    && ImagesOf(b).Keys == {INITIAL, UPGRADE}
    && RoleImmutable(b, INITIAL) && RoleImmutable(b, UPGRADE)
    && ImagesOf(b)[INITIAL].digest == b.imageDigest
  }

  function PrimaryDigest(b: Binding): Option<string>
  {
    if INITIAL in ImagesOf(b) then ImagesOf(b)[INITIAL].digest else None
  }

  /** Collect every reason against a binding. */
  method ValidateBinding(b: Binding, now: Now) returns (reasons: seq<Reason>)
    ensures reasons == [] <==> ValidBinding(b, now)
    ensures HashChanged !in reasons && LockKind !in reasons
  {
    reasons := [];
    if b.kind != Some(BINDING_KIND) {
      reasons := reasons + [BindingKind];
    }
    if !ReleaseWellFormed(b.release) {
      reasons := reasons + [ReleaseInvalid];
    } else if now.release.Some? && b.release != now.release {
      reasons := reasons + [OtherRelease];
    }
    if !SameCheckout(b.source, now.source) {
      reasons := reasons + [OtherSource];
    }
    if b.imageDigest.None? || !IsImageDigest(b.imageDigest.value) {
      reasons := reasons + [DigestInvalid];
    }
    if ImagesOf(b).Keys != {INITIAL, UPGRADE} {
      reasons := reasons + [ImageSetIncomplete];
    }
    var roles := [INITIAL, UPGRADE];
    ghost var before := reasons;
    for i := 0 to |roles|
      invariant before <= reasons && HashChanged !in reasons && LockKind !in reasons
      invariant reasons == before <==> forall j :: 0 <= j < i ==> RoleImmutable(b, roles[j])
    {
      if !RoleImmutable(b, roles[i]) {
        reasons := reasons + [ImageNotImmutable(roles[i])];
      }
    }
    assert reasons == before <==> RoleImmutable(b, roles[0]) && RoleImmutable(b, roles[1]);
    if PrimaryDigest(b) != b.imageDigest {
      reasons := reasons + [PrimaryDigestInconsistent];
    }
  }

  /** The lock record of a binding. */
  function MakeLock(b: Binding, generatedAt: string): Lock
  {
    Lock(1, Some(LOCK_KIND), generatedAt, b.release, b.source, Some(Sha256(b)), b.repository, b.imageDigest, b.images)
  }

  datatype Created = Locked(lock: Lock) | NotLocked(reasons: seq<Reason>) | NoRelease | NoRepository

  /** Freeze a binding after rechecking it; the current release must be configured. */
  method CreateLock(b: Binding, now: Now, clock: string) returns (r: Created)
    ensures r.Locked? <==> now.release.Some? && ValidBinding(b, now) && b.repository.Some?
    ensures r.Locked? ==> r.lock == MakeLock(b, clock) && Verified(r.lock, b, now)
  {
    if now.release.None? {
      return NoRelease;
    }
    var reasons := ValidateBinding(b, now);
    if reasons != [] {
      return NotLocked(reasons);
    }
    if b.repository.None? {
      return NoRepository;
    }
    r := Locked(MakeLock(b, clock));
  }

  predicate LockField(l: Lock, f: Field, b: Binding)
  {
    match f
    case ReleaseField => l.release == b.release
    case SourceField => l.source == b.source
    case RepositoryField => l.repository == b.repository
    case DigestField => l.imageDigest == b.imageDigest
    case ImagesField => l.images == b.images
  }

  /** The lock verifier's verdict on a pair read from disk. */
  predicate Verified(l: Lock, b: Binding, now: Now)
  {
    && ValidBinding(b, now)
    && l.schemaVersion == 1 && l.kind == Some(LOCK_KIND) && l.bindingSha256 == Some(Sha256(b))
    && l.release == b.release && l.source == b.source && l.repository == b.repository
    && l.imageDigest == b.imageDigest && l.images == b.images
  }

  /** Collect every reason against a lock and its binding. */
  method VerifyLock(l: Lock, b: Binding, now: Now) returns (reasons: seq<Reason>)
    ensures reasons == [] <==> Verified(l, b, now)
    ensures HashChanged in reasons <==> l.bindingSha256 != Some(Sha256(b))
  {
    reasons := ValidateBinding(b, now);
    if l.schemaVersion != 1 || l.kind != Some(LOCK_KIND) {
      reasons := reasons + [LockKind];
    }
    if l.bindingSha256 != Some(Sha256(b)) {
      reasons := reasons + [HashChanged];
    }
    var fields := [ReleaseField, SourceField, RepositoryField, DigestField, ImagesField];
    ghost var before := reasons;
    for i := 0 to |fields|
      invariant before <= reasons && (HashChanged in reasons <==> HashChanged in before)
      invariant reasons == before <==> forall j :: 0 <= j < i ==> LockField(l, fields[j], b)
    {
      if !LockField(l, fields[i], b) {
        reasons := reasons + [FieldChanged(fields[i])];
      }
    }
    assert reasons == before <==>
      LockField(l, fields[0], b) && LockField(l, fields[1], b) && LockField(l, fields[2], b) &&
      LockField(l, fields[3], b) && LockField(l, fields[4], b);
  }

  /** The verifier accepts a pair exactly when the lock is the one made for that binding, whenever it was made. */
  lemma VerifiedIffMade(l: Lock, b: Binding, now: Now)
    ensures Verified(l, b, now) <==> ValidBinding(b, now) && l == MakeLock(b, l.generatedAt)
  {
    if ValidBinding(b, now) && l == MakeLock(b, l.generatedAt) {
      assert Verified(l, b, now);
    }
  }

  /** A lock made for one binding is rejected beside any other. */
  lemma MixedPairRejected(made: Binding, found: Binding, clock: string, now: Now)
    requires made != found
    ensures !Verified(MakeLock(made, clock), found, now)
  {
    assert Sha256(made).content != Sha256(found).content;
  }

  /** A binding is valid in one checkout only, and under one configured release. */
  lemma BoundToCheckout(b: Binding, now: Now, other: Now)
    requires ValidBinding(b, now) && ValidBinding(b, other)
    ensures now.source.available && other.source.available && now.source.value == other.source.value
    ensures now.release.Some? && other.release.Some? ==> now.release == other.release
  {
  }

  /** The shape of an immutable reference. */
  ghost predicate Refers(image: Image, host: string, port: string, path: string, hex: string)
  {
    && Plain(host) && IsPort(port) && Plain(path) && |hex| == 64 && IsHex(hex)
    && image.digest == Some("sha256:" + hex)
    && image.reference == Some(host + port + "/" + path + "@sha256:" + hex)
  }

  lemma Parted(image: Image)
    requires Immutable(image)
    ensures exists host, port, path, hex :: Refers(image, host, port, path, hex)
  {
    hide Plain, IsPort, IsHex;
    var ref, digest := image.reference.value, image.digest.value;
    var name := ref[..|ref| - 72];
    var i, j :| 0 < i <= j < |name| - 1 && Plain(name[..i]) && IsPort(name[i..j]) && name[j] == '/' && Plain(name[j + 1..]);
    var host, port, path, hex := name[..i], name[i..j], name[j + 1..], digest[7..];
    assert digest == "sha256:" + hex;
    assert name == host + port + "/" + path;
    assert ref == name + ref[|ref| - 72..];
    Glued(name, hex);
    assert Refers(image, host, port, path, hex);
  }

  lemma Glued(name: string, hex: string)
    ensures name + ("@" + ("sha256:" + hex)) == name + "@sha256:" + hex
  {
  }

  lemma Joined(image: Image, host: string, port: string, path: string, hex: string)
    requires Refers(image, host, port, path, hex)
    ensures Immutable(image)
  {
    hide IsPort, IsHex;
    var name, digest := host + port + "/" + path, "sha256:" + hex;
    var ref := image.reference.value;
    Glued(name, hex);
    assert ref == name + ("@" + digest) && |ref| == |name| + 72;
    assert ref[..|name|] == name && ref[|name|..] == "@" + digest;
    assert digest[..7] == "sha256:" && digest[7..] == hex;
    var i, j := |host|, |host| + |port|;
    assert name[..i] == host && name[i..j] == port && name[j] == '/' && name[j + 1..] == path;
    assert IsImageName(name);
  }

  /** An image is immutable exactly when its reference is a host, a port if any, a path and its own digest. */
  lemma ImmutableIff(image: Image)
    ensures Immutable(image) <==> exists host, port, path, hex :: Refers(image, host, port, path, hex)
  {
    if Immutable(image) {
      Parted(image);
    }
    if host, port, path, hex :| Refers(image, host, port, path, hex) {
      Joined(image, host, port, path, hex);
    }
  }
}
