/** The pure decisions about one staging directory: whether recovery keeps, renames or deletes
    it, whether a listing calls it adoptable, and whether an acquisition claims it. */
module StagingRules {
  import opened Common
  import opened Text

  /** The name forms the archive tells apart by prefix: `.fetch-active-`, `fetch-abandoned-`
      and everything else (`fetch-`, `revision-`, `extend-`, foreign names). */
  datatype NameForm = ActiveForm | AbandonedForm | OtherForm

  /** What identifies an acquisition besides its selection. */
  datatype Identity = Identity(repoType: nat, repoId: string, revision: string)

  datatype Meta = Meta(identity: Identity, files: seq<string>, commit: Option<string>)

  /** The lease file as a reader finds it. */
  datatype LeaseFile = NoLease | Garbled | Expires(at: nat)

  /** One entry of the temporary area. `meta` is `None` when the metadata file is absent,
      unparsable or fails validation. */
  datatype Entry = Entry(isDirectory: bool, lease: LeaseFile, meta: Option<Meta>)

  datatype Request = Request(identity: Identity, files: seq<string>)

  const ACTIVE_PREFIX := ".fetch-active-"
  const ABANDONED_PREFIX := "fetch-abandoned-"

  function FormOf(name: string): NameForm {
    if HasPrefix(name, ABANDONED_PREFIX) then AbandonedForm
    else if HasPrefix(name, ACTIVE_PREFIX) then ActiveForm
    else OtherForm
  }

  /** An unrestricted staging may be adopted by any request, a restricted one only by its own. */
  predicate SelectionAdoptable(recorded: seq<string>, requested: seq<string>) {
    recorded == [] || recorded == requested
  }

  predicate RecordsCommit(meta: Option<Meta>) {
    meta.Some? && meta.value.commit.Some?
  }

  predicate Adoptable(form: NameForm, meta: Option<Meta>) {
    form != OtherForm && RecordsCommit(meta)
  }

  /** The metadata half of the claim test, on metadata already read. */
  predicate Claimable(meta: Meta, request: Request) {
    && meta.identity == request.identity
    && SelectionAdoptable(meta.files, request.files)
    && meta.commit.Some?
  }

  // ---------------------------------------------------------------- startup recovery

  datatype RecoveryAction = Keep | PreserveForResume | Discard

  /** The branch order of one recovery decision. */
  function Recover(form: NameForm, entry: Entry, now: nat): RecoveryAction {
    if !entry.isDirectory || !entry.lease.Expires? then Keep
    else if entry.lease.at > now then Keep
    else
      var identity := if form != OtherForm then entry.meta else None;
      if form == AbandonedForm && RecordsCommit(identity) then Keep
      else if form == ActiveForm && RecordsCommit(identity) then PreserveForResume
      else Discard
  }

  // ---------------------------------------------------------------- listing

  datatype Retention = Active | Resumable | UnreadableLease | NotReclaimable | Stale

  predicate IsActive(entry: Entry, now: nat) {
    entry.lease.Expires? && entry.lease.at > now
  }

  predicate ListedAdoptable(form: NameForm, entry: Entry, now: nat) {
    && entry.isDirectory
    && !IsActive(entry, now)
    && entry.lease.Expires?
    && Adoptable(form, entry.meta)
  }

  function Classify(form: NameForm, entry: Entry, now: nat, skipped: bool): Retention {
    if IsActive(entry, now) then Active
    else if skipped then NotReclaimable
    else if !entry.lease.Expires? then UnreadableLease
    else if ListedAdoptable(form, entry, now) then Resumable
    else Stale
  }

  // ---------------------------------------------------------------- acquisition

  datatype Attempt = StartFresh | InFlight | Claim | LeaseError

  /** What an acquisition does when the entry is alone in the temporary area: the
      abandoned scan, then the active scan, then fresh staging. */
  function Acquire(form: NameForm, entry: Entry, request: Request, now: nat): Attempt {
    if !entry.isDirectory || form == OtherForm || entry.meta.None? then StartFresh
    else if entry.meta.value.identity != request.identity then StartFresh
    else if form == AbandonedForm then AcquireAbandoned(entry.lease, entry.meta.value, request, now)
    else AcquireActive(entry.lease, entry.meta.value, request, now)
  }

  function AcquireAbandoned(lease: LeaseFile, meta: Meta, request: Request, now: nat): Attempt {
    if !SelectionAdoptable(meta.files, request.files) || meta.commit.None? then StartFresh
    else
      match lease
      case NoLease => StartFresh
      case Garbled => LeaseError
      case Expires(at) => if at > now then InFlight else Claim
  }

  function AcquireActive(lease: LeaseFile, meta: Meta, request: Request, now: nat): Attempt {
    match lease
    case NoLease => StartFresh
    case Garbled => LeaseError
    case Expires(at) =>
      if at > now then
        if meta.files == request.files then InFlight else StartFresh
      else if !SelectionAdoptable(meta.files, request.files) || meta.commit.None? then StartFresh
      else Claim
  }

  // ---------------------------------------------------------------- properties

  /** The directory records this acquisition's identity. */
  predicate SameAcquisition(entry: Entry, request: Request) {
    entry.isDirectory && entry.meta.Some? && entry.meta.value.identity == request.identity
  }

  /** An acquisition is refused as in flight exactly when a directory of the same identity has a live
      lease, and the request asks for the recorded selection of an active one or could claim an abandoned
      one. */
  lemma InFlightIff(form: NameForm, entry: Entry, request: Request, now: nat)
    ensures Acquire(form, entry, request, now) == InFlight <==>
            && SameAcquisition(entry, request) && entry.lease.Expires? && entry.lease.at > now
            && ((form == ActiveForm && entry.meta.value.files == request.files)
                || (form == AbandonedForm && Claimable(entry.meta.value, request)))
  {
  }

  /** It fails on a lease nobody can read exactly when the directory has the same identity and is active,
      or abandoned and claimable. */
  lemma LeaseErrorIff(form: NameForm, entry: Entry, request: Request, now: nat)
    ensures Acquire(form, entry, request, now) == LeaseError <==>
            && SameAcquisition(entry, request) && entry.lease.Garbled?
            && (form == ActiveForm || (form == AbandonedForm && Claimable(entry.meta.value, request)))
  {
  }

  /** It claims the directory exactly when the lease has expired and the request may adopt what it records. */
  lemma ClaimIff(form: NameForm, entry: Entry, request: Request, now: nat)
    ensures Acquire(form, entry, request, now) == Claim <==>
            && SameAcquisition(entry, request) && entry.lease.Expires? && entry.lease.at <= now
            && form != OtherForm && Claimable(entry.meta.value, request)
  {
  }

  /** The form of a name is told by its prefix. */
  lemma FormsOfNames(suffix: string)
    ensures FormOf(".fetch-active-" + suffix) == ActiveForm
    ensures FormOf("fetch-abandoned-" + suffix) == AbandonedForm
    ensures (suffix == "" || suffix[0] != 'a') ==> FormOf("fetch-" + suffix) == OtherForm
    ensures FormOf("revision-" + suffix) == OtherForm && FormOf("extend-" + suffix) == OtherForm
  {
    assert (".fetch-active-" + suffix)[..14] == ACTIVE_PREFIX;
    assert ("fetch-abandoned-" + suffix)[..16] == ABANDONED_PREFIX;
    assert (".fetch-active-" + suffix)[0] == '.' && ("fetch-" + suffix)[0] == 'f';
    if suffix != "" { assert ("fetch-" + suffix)[6] == suffix[0]; }
    assert ABANDONED_PREFIX[6] == 'a' && ABANDONED_PREFIX[0] == 'f' && ACTIVE_PREFIX[0] == '.';
    assert ("revision-" + suffix)[0] == 'r' && ("extend-" + suffix)[0] == 'e';
  }

  /** Recovery renames for resuming exactly the expired active directories that record a commit; so whatever
      it leaves of the expired ones is under an abandoned name. */
  lemma PreservesExactlyActive(form: NameForm, entry: Entry, now: nat)
    ensures Recover(form, entry, now) == PreserveForResume <==>
            && entry.isDirectory && entry.lease.Expires? && entry.lease.at <= now
            && form == ActiveForm && RecordsCommit(entry.meta)
    ensures entry.isDirectory && entry.lease.Expires? && entry.lease.at <= now && Left(form, entry, now).Some? ==>
            Left(form, entry, now).value == (AbandonedForm, entry) && RecordsCommit(entry.meta)
  {
  }

  /** What a listing says of a directory and what becomes of it agree: it is active exactly while its lease
      is live, resumable exactly if some request would claim it, and stale exactly if recovery would delete
      it, unless recovery has already failed to. */
  lemma ListingAgrees(form: NameForm, entry: Entry, now: nat, skipped: bool)
    requires entry.isDirectory
    ensures var listed := Classify(form, entry, now, skipped);
            && (listed == Active <==> entry.lease.Expires? && entry.lease.at > now)
            && (listed == NotReclaimable <==> skipped && listed != Active)
            && (listed == UnreadableLease <==> !skipped && !entry.lease.Expires?)
            && (listed == Resumable <==> !skipped && exists request :: Acquire(form, entry, request, now) == Claim)
            && (listed == Stale <==> !skipped && Recover(form, entry, now) == Discard)
  {
    hide Acquire, Recover;
    ListedExactlyWhenSomeRequestClaims(form, entry, now);
    DiscardsIff(form, entry, now);
  }

  lemma DiscardsIff(form: NameForm, entry: Entry, now: nat)
    ensures Recover(form, entry, now) == Discard <==>
            entry.isDirectory && entry.lease.Expires? && entry.lease.at <= now && !Adoptable(form, entry.meta)
  {
  }

  /** Recovery deletes exactly the directories whose lease is readable and expired and which
      no later acquisition could adopt. */
  lemma DiscardsExactlyUnadoptable(name: string, entry: Entry, now: nat)
    ensures Recover(FormOf(name), entry, now) == Discard <==>
            && entry.isDirectory
            && entry.lease.Expires? && entry.lease.at <= now
            && !Adoptable(FormOf(name), entry.meta)
  {
  }

  /** The entry a recovery action leaves behind under `form'`; deletion leaves nothing. */
  function Left(form: NameForm, entry: Entry, now: nat): Option<(NameForm, Entry)> {
    match Recover(form, entry, now)
    case Keep => Some((form, entry))
    case PreserveForResume => Some((AbandonedForm, entry))
    case Discard => None
  }

  /** Everything adoptable before recovery is adoptable after it, at any later time, and every
      request that would have claimed it still would. */
  lemma AdoptableSurvivesRecovery(form: NameForm, entry: Entry, now: nat, later: nat, request: Request)
    requires now <= later
    requires ListedAdoptable(form, entry, now)
    ensures Left(form, entry, now).Some?
    ensures var (form', entry') := Left(form, entry, now).value;
            && ListedAdoptable(form', entry', later)
            && (Acquire(form, entry, request, now) == Claim <==> Acquire(form', entry', request, later) == Claim)
  {
  }

  /** A listing calls a directory adoptable exactly when some request would claim it. */
  lemma ListedExactlyWhenSomeRequestClaims(form: NameForm, entry: Entry, now: nat)
    ensures ListedAdoptable(form, entry, now) <==> exists request :: Acquire(form, entry, request, now) == Claim
  {
    if ListedAdoptable(form, entry, now) {
      var request := Request(entry.meta.value.identity, entry.meta.value.files);
      assert Acquire(form, entry, request, now) == Claim;
    }
  }
}
