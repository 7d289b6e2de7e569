/** What a job submission is recognized by: the text hashed into its idempotency entry. */
module RequestHash {
  import opened Common
  import opened Text
  import opened Paths
  import opened Selection

  datatype JobKind = Prefetch | Refresh | Verify | Audit

  datatype JobRequest = JobRequest(kind: JobKind, repoType: RepositoryType, repoId: Option<string>, revision: Option<string>)

  datatype Principal = Principal(authMethod: string, login: Option<string>)

  /** SHA-256 as an injective function of the hashed text. */
  datatype Digest = Sha256(preimage: string)

  const NUL := '\0'

  function KindName(kind: JobKind): string {
    match kind
    case Prefetch => "Prefetch"
    case Refresh => "Refresh"
    case Verify => "Verify"
    case Audit => "Audit"
  }

  function OrEmpty(value: Option<string>): string {
    match value
    case Some(text) => text
    case None => ""
  }

  /** The fields hashed for a request; an unrestricted selection contributes none. */
  function Fields(request: JobRequest, selection: FileSelection, principal: Principal): (r: seq<string>)
    ensures |r| == if selection.IsUnrestricted() then 6 else 7
  {
    [KindName(request.kind), TypeName(request.repoType), OrEmpty(request.repoId), OrEmpty(request.revision),
     principal.authMethod, OrEmpty(principal.login)]
    + if selection.IsUnrestricted() then [] else (IdentityNonempty(selection); [JoinWith('\n', IdentityOf(selection))])
  }

  lemma IdentityNonempty(selection: FileSelection)
    requires !selection.IsUnrestricted()
    ensures IdentityOf(selection) != []
  {
    if selection.excluded != [] {
      assert |IdentityOf(selection)| == |selection.included| + |selection.excluded|;
    }
  }

  function RequestDigest(request: JobRequest, selection: FileSelection, principal: Principal): Digest {
    Sha256(JoinWith(NUL, Fields(request, selection, principal)))
  }

  /** The fields hashed before repository types and selections existed. */
  function LegacyFields(request: JobRequest, principal: Principal): (r: seq<string>)
    ensures |r| == 5
  {
    [KindName(request.kind), OrEmpty(request.repoId), OrEmpty(request.revision),
     principal.authMethod, OrEmpty(principal.login)]
  }

  function LegacyDigest(request: JobRequest, principal: Principal): Digest {
    Sha256(JoinWith(NUL, LegacyFields(request, principal)))
  }

  /** A validated component: a namespace, repository or revision name. */
  predicate ValidComponent(value: string) {
    value != "" && (forall c :: c in value ==> !IsControl(c))
  }

  /** What submission validation guarantees of a request and its selection. */
  predicate ValidRequest(request: JobRequest, selection: FileSelection) {
    && selection.Valid()
    && (if request.kind == Audit then request.repoId.None? && request.revision.None?
        else
          && request.repoId.Some? && ValidComponent(request.repoId.value)
          && request.revision.Some? && ValidComponent(request.revision.value))
    && (request.kind != Prefetch ==> selection.IsUnrestricted())
  }

  /** Principals come from request headers: no control characters, and an empty login is absent. */
  predicate ValidPrincipal(principal: Principal) {
    && NUL !in principal.authMethod
    && (principal.login.Some? ==> principal.login.value != "" && NUL !in principal.login.value)
  }

  lemma {:induction false} JoinedCharacters(separator: char, parts: seq<string>, c: char)
    requires |parts| > 0 && c != separator && Free(c, parts)
    ensures c !in JoinWith(separator, parts)
  {
    if |parts| > 1 {
      JoinedCharacters(separator, parts[1..], c);
    }
  }

  lemma IdentityIsPlain(selection: FileSelection, c: char)
    requires selection.Valid() && IsControl(c)
    ensures Free(c, IdentityOf(selection))
  {
    IdentitySplits(selection);
    forall i | 0 <= i < |IdentityOf(selection)| ensures c !in IdentityOf(selection)[i] {
      if i < |selection.included| {
        assert IsSafePattern(selection.included[i]);
      } else {
        var p := selection.excluded[i - |selection.included|];
        assert IsSafePattern(p);
        assert IdentityOf(selection)[i] == [EXCLUDE_PREFIX] + p;
      }
    }
  }

  lemma FieldsAreFree(request: JobRequest, selection: FileSelection, principal: Principal)
    requires ValidRequest(request, selection) && ValidPrincipal(principal)
    ensures Free(NUL, Fields(request, selection, principal)) && Free(NUL, LegacyFields(request, principal))
  {
    assert NUL !in OrEmpty(request.repoId) && NUL !in OrEmpty(request.revision);
    if !selection.IsUnrestricted() {
      IdentityIsPlain(selection, NUL);
      IdentityNonempty(selection);
      JoinedCharacters('\n', IdentityOf(selection), NUL);
    }
  }

  /** The same submission: one request, one selection, one principal. */
  predicate SameSubmission(r: JobRequest, s: FileSelection, p: Principal, r': JobRequest, s': FileSelection, p': Principal) {
    r == r' && s == s' && p == p'
  }

  /** Equal digests mean one request, one selection and one principal. */
  lemma DigestIdentifiesSubmission(r: JobRequest, s: FileSelection, p: Principal, r': JobRequest, s': FileSelection, p': Principal)
    requires ValidRequest(r, s) && ValidPrincipal(p) && ValidRequest(r', s') && ValidPrincipal(p')
    ensures RequestDigest(r, s, p) == RequestDigest(r', s', p') <==> SameSubmission(r, s, p, r', s', p')
  {
    if RequestDigest(r, s, p) == RequestDigest(r', s', p') {
      FieldsAreFree(r, s, p);
      FieldsAreFree(r', s', p');
      var f, f' := Fields(r, s, p), Fields(r', s', p');
      JoinIsInjective(NUL, f, f');
      assert f[0] == KindName(r.kind) && f'[0] == KindName(r'.kind);
      assert f[1] == TypeName(r.repoType) && f'[1] == TypeName(r'.repoType);
      assert f[2] == OrEmpty(r.repoId) && f'[2] == OrEmpty(r'.repoId);
      assert f[3] == OrEmpty(r.revision) && f'[3] == OrEmpty(r'.revision);
      assert f[4] == p.authMethod && f'[4] == p'.authMethod;
      assert f[5] == OrEmpty(p.login) && f'[5] == OrEmpty(p'.login);
      SelectionFromFields(s, s', f, f');
    }
  }

  lemma SelectionFromFields(s: FileSelection, s': FileSelection, f: seq<string>, f': seq<string>)
    requires s.Valid() && s'.Valid() && f == f'
    requires |f| == (if s.IsUnrestricted() then 6 else 7) && |f'| == (if s'.IsUnrestricted() then 6 else 7)
    requires !s.IsUnrestricted() ==> IdentityOf(s) != [] && f[6] == JoinWith('\n', IdentityOf(s))
    requires !s'.IsUnrestricted() ==> IdentityOf(s') != [] && f'[6] == JoinWith('\n', IdentityOf(s'))
    ensures s == s'
  {
    if !s.IsUnrestricted() {
      IdentityIsPlain(s, '\n');
      IdentityIsPlain(s', '\n');
      JoinIsInjective('\n', IdentityOf(s), IdentityOf(s'));
      IdentityIsInjective(s, s');
    }
  }

  /** No entry written before selections existed has the digest of a current submission. */
  lemma LegacyNeverEqualsCurrent(r: JobRequest, s: FileSelection, p: Principal, r': JobRequest, s': FileSelection, p': Principal)
    requires ValidRequest(r, s) && ValidPrincipal(p) && ValidRequest(r', s') && ValidPrincipal(p')
    ensures LegacyDigest(r, p) != RequestDigest(r', s', p')
  {
    FieldsAreFree(r, s, p);
    FieldsAreFree(r', s', p');
    if LegacyDigest(r, p) == RequestDigest(r', s', p') {
      JoinIsInjective(NUL, LegacyFields(r, p), Fields(r', s', p'));
    }
  }
}
