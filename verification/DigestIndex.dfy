/** The digest index of pkg/indexer/dedupe.go: one entry per content digest, created only if absent
    and deleted only at the version that was read. A request may be lost before it takes effect or
    its reply may be lost afterwards; the caller sees the same error. */
module DigestIndex {
  import opened Common

  datatype Entry = Entry(owner: string, version: nat)

  /** `next` is the version the next write gets, so versions never repeat. */
  datatype Index = Index(entries: map<string, Entry>, next: nat)

  datatype Answer = Delivered | LostRequest | LostReply

  datatype CreateReply = Created | Conflict | CreateError
  datatype GetReply = Found(entry: Entry) | Missing | GetError

  predicate Creates(ix: Index, digest: string, answer: Answer) {
    !answer.LostRequest? && digest !in ix.entries
  }

  function Create(ix: Index, digest: string, owner: string, answer: Answer): Index {
    if Creates(ix, digest, answer) then Index(ix.entries[digest := Entry(owner, ix.next)], ix.next + 1) else ix
  }

  function CreateAnswer(ix: Index, digest: string, answer: Answer): CreateReply {
    if !answer.Delivered? then CreateError else if digest in ix.entries then Conflict else Created
  }

  function Get(ix: Index, digest: string, answer: Answer): GetReply {
    if !answer.Delivered? then GetError
    else if digest in ix.entries then Found(ix.entries[digest]) else Missing
  }

  predicate Deletes(ix: Index, digest: string, version: nat, answer: Answer) {
    !answer.LostRequest? && digest in ix.entries && ix.entries[digest].version == version
  }

  function DeleteIf(ix: Index, digest: string, version: nat, answer: Answer): Index {
    if Deletes(ix, digest, version, answer) then Index(ix.entries - {digest}, ix.next + 1) else ix
  }

  /** The index after what other clients did, if they did anything. */
  function Later(ix: Index, meanwhile: Option<Index>): Index {
    if meanwhile.Some? then meanwhile.value else ix
  }

  /** Every write gets a new version, so an entry of an old version is the old entry. */
  ghost predicate Follows(ix: Index, later: Index) {
    && ix.next <= later.next
    && (forall d <- ix.entries :: ix.entries[d].version < ix.next)
    && forall d <- later.entries | later.entries[d].version < ix.next :: d in ix.entries && later.entries[d] == ix.entries[d]
  }

  predicate OwnedBy(ix: Index, digest: string, owner: string) {
    digest in ix.entries && ix.entries[digest].owner == owner
  }

  class DigestIndex {
    var entries: map<string, Entry>
    var next: nat

    ghost function View(): Index
      reads this
    {
      Index(entries, next)
    }

    constructor ()
      ensures View() == Index(map[], 0)
    {
      entries, next := map[], 0;
    }

    /** PUT _create: atomic, and a conflict when the digest has an entry. */
    method CreateRequest(digest: string, owner: string, answer: Answer) returns (reply: CreateReply)
      modifies this
      ensures View() == Create(old(View()), digest, owner, answer)
      ensures reply == CreateAnswer(old(View()), digest, answer)
    {
      if answer.LostRequest? {
        return CreateError;
      }
      if digest in entries {
        return if answer.Delivered? then Conflict else CreateError;
      }
      entries := entries[digest := Entry(owner, next)];
      next := next + 1;
      return if answer.Delivered? then Created else CreateError;
    }

    method GetRequest(digest: string, answer: Answer) returns (reply: GetReply)
      ensures reply == Get(View(), digest, answer)
    {
      if !answer.Delivered? {
        return GetError;
      }
      return if digest in entries then Found(entries[digest]) else Missing;
    }

    /** DELETE with if_seq_no and if_primary_term. */
    method DeleteRequest(digest: string, version: nat, answer: Answer)
      modifies this
      ensures View() == DeleteIf(old(View()), digest, version, answer)
    {
      if !answer.LostRequest? && digest in entries && entries[digest].version == version {
        entries := entries - {digest};
        next := next + 1;
      }
    }

    /** Other clients have been at work. */
    method Others(meanwhile: Option<Index>)
      modifies this
      ensures View() == Later(old(View()), meanwhile)
    {
      if meanwhile.Some? {
        entries, next := meanwhile.value.entries, meanwhile.value.next;
      }
    }

    /** Other clients may have changed the index to `meanwhile` between the two requests. */
    method ReserveContentDigest(digest: string, owner: string, created: Answer, meanwhile: Option<Index>, read: Answer)
        returns (reserved: bool, existing: string, error: bool)
      modifies this
      ensures digest == "" ==> reserved && !error && View() == old(View())
      ensures digest != "" && !CreateAnswer(old(View()), digest, created).Conflict? ==>
                View() == Create(old(View()), digest, owner, created)
      ensures digest != "" && CreateAnswer(old(View()), digest, created).Conflict? ==> View() == Later(old(View()), meanwhile)
      ensures reserved && digest != "" ==> digest !in old(entries) && digest in entries && entries[digest].owner == owner
      ensures !reserved && !error ==>
                digest in old(entries) && existing == if digest in entries then entries[digest].owner else ""
      ensures reserved <==> digest == "" || (created.Delivered? && digest !in old(entries))
      ensures error <==> digest != "" && (!created.Delivered? || (digest in old(entries) && !read.Delivered?))
    {
      reserved, existing, error := false, "", false;
      if digest == "" {
        reserved := true;
        return;
      }
      var reply := CreateRequest(digest, owner, created);
      match reply
      case Created => reserved := true;
      case CreateError => error := true;
      case Conflict =>
        Others(meanwhile);
        var holder := GetRequest(digest, read);
        match holder
        case GetError => error := true;
        case Missing => existing := "";
        case Found(entry) => existing := entry.owner;
    }

    /** Compare and delete: whatever other clients do between the two requests, nothing is removed but the
        very entry that was read, and only if it is the caller's. */
    method ReleaseContentDigest(digest: string, owner: string, read: Answer, meanwhile: Option<Index>, deleted: Answer)
        returns (error: bool)
      requires meanwhile.Some? ==> Follows(View(), meanwhile.value)
      modifies this
      ensures digest == "" ==> !error && View() == old(View())
      ensures digest != "" ==>
        View() == (if read.Delivered? && OwnedBy(old(View()), digest, owner)
                   then DeleteIf(Later(old(View()), meanwhile), digest, old(entries)[digest].version, deleted)
                   else Later(old(View()), meanwhile))
      ensures digest != "" ==>
        (error <==> !read.Delivered? || (OwnedBy(old(View()), digest, owner) && !deleted.Delivered?))
      ensures digest != "" ==>
        && (forall d <- Later(old(View()), meanwhile).entries ::
              d in entries || (d == digest && d in old(entries) && old(entries)[d].owner == owner
                               && Later(old(View()), meanwhile).entries[d] == old(entries)[d]))
        && (forall d <- entries :: d in Later(old(View()), meanwhile).entries && entries[d] == Later(old(View()), meanwhile).entries[d])
      ensures digest != "" && read.Delivered? && deleted.Delivered? ==>
                !error && (digest in entries && digest in old(entries) && entries[digest] == old(entries)[digest] ==>
                             entries[digest].owner != owner)
    {
      error := false;
      if digest == "" {
        return;
      }
      var holder := GetRequest(digest, read);
      Others(meanwhile);
      match holder
      case GetError => error := true;
      case Missing =>
      case Found(entry) =>
        if entry.owner == owner {
          DeleteRequest(digest, entry.version, deleted);
          error := !deleted.Delivered?;
        }
    }
  }
}
