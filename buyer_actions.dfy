/**
 * The `createBuyerLead` server action: an authentication gate, the schema
 * gate, tag parsing, and one transaction that inserts a buyer row together with
 * its history row. The two tables live in a `LeadStore`.
 */
module BuyerActions {
  import opened Wrappers
  import opened Tags
  import opened BuyerSchema

  /** The signed-in user as the auth client reports it. */
  datatype User = User(id: string, email: Option<string>)

  /** A stored buyer row. Columns the database fills in itself (timestamps and
      the status default) are not part of this model. */
  datatype Buyer = Buyer(
    id: string, fullName: string, email: Option<string>, phone: string,
    city: Option<string>, propertyType: Option<string>, purpose: Option<string>,
    timeline: Option<string>, source: Option<string>,
    budgetMin: Option<int>, budgetMax: Option<int>, notes: Option<string>,
    bhk: Option<string>, tags: seq<string>, ownerId: string)

  /** The history row's `diff` column. */
  datatype Diff = Created(buyer: Buyer)

  datatype HistoryEntry = HistoryEntry(buyerId: string, changedBy: string, diff: Diff)

  /** What the action answers: `{success: false, message, errors?}`, or the
      redirect it ends with. */
  datatype ActionResult = Rejected(message: string, errors: Option<FieldErrors>) | Redirected(path: string)

  /** Which statement of the transaction, if any, throws. */
  datatype StoreFault = NoFault | BuyerInsertFails | HistoryInsertFails

  const AuthRequiredMessage := "Authentication required."
  const InvalidFormMessage := "Invalid form data."
  const CreateFailedMessage := "Failed to create lead."
  const BuyersPath := "/buyers"

  /** `tags ? tags.split(',').map(trim).filter(Boolean) : []`. */
  function TagsOf(tags: Option<string>): (r: seq<string>)
    ensures AllTags(r)
    ensures r == ParseTags(tags.GetOr(""))
  {
    ParseTagsEmpty();
    if tags.Some? && tags.value != "" then ParseTags(tags.value) else []
  }

  /** `user.email || user.id`. */
  function ChangedBy(user: User): (r: string)
    ensures user.email.Some? && user.email.value != "" ==> r == user.email.value
    ensures user.email.None? || user.email.value == "" ==> r == user.id
  {
    if user.email.Some? && user.email.value != "" then user.email.value else user.id
  }

  /** `bhk || null`: an empty or absent bhk is stored as null. */
  function StoredBhk(bhk: Option<string>): (r: Option<string>)
    ensures r.None? <==> bhk.None? || bhk.value == ""
    ensures r.Some? ==> r == bhk
  {
    if bhk.Some? && bhk.value != "" then bhk else None
  }

  /** The row the action inserts for a validated lead. */
  function NewBuyer(lead: Lead, id: string, ownerId: string): Buyer {
    Buyer(id, lead.fullName, lead.email, lead.phone, lead.city, lead.propertyType, lead.purpose,
          lead.timeline, lead.source, lead.budgetMin, lead.budgetMax, lead.notes,
          StoredBhk(lead.bhk), TagsOf(lead.tags), ownerId)
  }

  function Ids(buyers: seq<Buyer>): set<string> {
    set i | 0 <= i < |buyers| :: buyers[i].id
  }

  /** The number of history rows about buyer `id`. */
  function HistoryCount(history: seq<HistoryEntry>, id: string): nat {
    if history == [] then 0
    else (if history[|history| - 1].buyerId == id then 1 else 0) + HistoryCount(history[..|history| - 1], id)
  }

  /** Rows about buyers already in the store never mention an id the store lacks. */
  lemma {:induction false} HistoryCountAbsent(history: seq<HistoryEntry>, ids: set<string>, id: string)
    requires forall k :: 0 <= k < |history| ==> history[k].buyerId in ids
    requires id !in ids
    ensures HistoryCount(history, id) == 0
    decreases |history|
  {
    if history != [] {
      HistoryCountAbsent(history[..|history| - 1], ids, id);
    }
  }

  /** After the action's commit the new buyer has exactly one history row, its
      creation. */
  lemma NewBuyerHistoryOnce(history: seq<HistoryEntry>, ids: set<string>, entry: HistoryEntry)
    requires forall k :: 0 <= k < |history| ==> history[k].buyerId in ids
    requires entry.buyerId !in ids
    ensures HistoryCount(history + [entry], entry.buyerId) == 1
  {
    HistoryCountAbsent(history, ids, entry.buyerId);
    assert (history + [entry])[..|history|] == history;
  }

  /** The fields of the stored row: copied from the validated lead, bhk
      normalised, tags parsed, owned by the acting user. */
  lemma NewBuyerFields(lead: Lead, id: string, user: User)
    ensures var b := NewBuyer(lead, id, user.id);
      && b.id == id && b.ownerId == user.id
      && b.fullName == lead.fullName && b.email == lead.email && b.phone == lead.phone
      && b.city == lead.city && b.propertyType == lead.propertyType && b.purpose == lead.purpose
      && b.timeline == lead.timeline && b.source == lead.source
      && b.budgetMin == lead.budgetMin && b.budgetMax == lead.budgetMax && b.notes == lead.notes
      && (b.bhk.None? <==> !TruthyString(lead.bhk))
      && AllTags(b.tags) && (lead.tags.None? || lead.tags == Some("") ==> b.tags == [])
  {
    ParseTagsEmpty();
  }

  // ---------------------------------------------------------------- store consistency

  predicate UniqueIds(buyers: seq<Buyer>) {
    forall i, j :: 0 <= i < j < |buyers| ==> buyers[i].id != buyers[j].id
  }

  /** Every history row is about a stored buyer. */
  predicate Referenced(history: seq<HistoryEntry>, buyers: seq<Buyer>) {
    forall k :: 0 <= k < |history| ==> history[k].buyerId in Ids(buyers)
  }

  /** The creation of buyer `b` is recorded. */
  predicate CreationRecorded(history: seq<HistoryEntry>, b: Buyer) {
    exists k :: 0 <= k < |history| && history[k].buyerId == b.id && history[k].diff == Created(b)
  }

  predicate AllRecorded(buyers: seq<Buyer>, history: seq<HistoryEntry>) {
    forall i :: 0 <= i < |buyers| ==> CreationRecorded(history, buyers[i])
  }

  /** Buyer ids are unique, every history row is about a stored buyer, and every
      stored buyer has its creation recorded. */
  predicate Consistent(buyers: seq<Buyer>, history: seq<HistoryEntry>) {
    UniqueIds(buyers) && Referenced(history, buyers) && AllRecorded(buyers, history)
  }

  lemma IdsAppend(buyers: seq<Buyer>, b: Buyer)
    ensures Ids(buyers + [b]) == Ids(buyers) + {b.id}
  {
    var bs := buyers + [b];
    forall x | x in Ids(bs) ensures x in Ids(buyers) + {b.id} {
      var i :| 0 <= i < |bs| && bs[i].id == x;
      if i < |buyers| { assert buyers[i].id == x; }
    }
    forall x | x in Ids(buyers) ensures x in Ids(bs) {
      var i :| 0 <= i < |buyers| && buyers[i].id == x;
      assert bs[i].id == x;
    }
    assert bs[|buyers|].id == b.id;
  }

  lemma RecordedAppend(history: seq<HistoryEntry>, b: Buyer, entry: HistoryEntry)
    requires CreationRecorded(history, b)
    ensures CreationRecorded(history + [entry], b)
  {
    var k :| 0 <= k < |history| && history[k].buyerId == b.id && history[k].diff == Created(b);
    assert (history + [entry])[k] == history[k];
  }

  /** Appending a buyer with a fresh id together with its creation row keeps the
      tables consistent. */
  lemma AppendKeepsConsistent(buyers: seq<Buyer>, history: seq<HistoryEntry>, b: Buyer, entry: HistoryEntry)
    requires Consistent(buyers, history)
    requires entry.buyerId == b.id && entry.diff == Created(b)
    requires b.id !in Ids(buyers)
    ensures Consistent(buyers + [b], history + [entry])
  {
    var bs := buyers + [b];
    var hs := history + [entry];
    IdsAppend(buyers, b);
    forall i, j | 0 <= i < j < |bs| ensures bs[i].id != bs[j].id {
      if j == |buyers| { assert buyers[i].id in Ids(buyers); }
    }
    forall k | 0 <= k < |hs| ensures hs[k].buyerId in Ids(bs) {
      if k < |history| { assert hs[k] == history[k]; }
    }
    forall i | 0 <= i < |bs| ensures CreationRecorded(hs, bs[i]) {
      if i < |buyers| {
        RecordedAppend(history, buyers[i], entry);
      } else {
        assert hs[|history|] == entry;
      }
    }
  }

  /** The buyer and history tables. */
  class LeadStore {
    var buyers: seq<Buyer>
    var history: seq<HistoryEntry>

    /** Buyer ids are unique, every history row is about a stored buyer, and
        every stored buyer has its creation recorded. */
    ghost predicate Valid()
      reads this
    {
      Consistent(buyers, history)
    }

    constructor()
      ensures Valid() && buyers == [] && history == []
    {
      buyers := [];
      history := [];
    }

    /** `createBuyerLead(formData)`. `user` is what `getUser` returns, `newId` the
        id the database assigns, `fault` the statement of the transaction that
        throws; a duplicate id is a failing insert too. The transaction either
        commits both rows or leaves both tables as they were. */
    method CreateBuyerLead(user: Option<User>, raw: RawLead, isEmail: string -> bool,
                           refinesAfterFieldIssues: bool, newId: string, fault: StoreFault)
      returns (result: ActionResult)
      requires Valid()
      modifies this
      ensures Valid()
      ensures user.None? ==> result == Rejected(AuthRequiredMessage, None) && unchanged(this)
      ensures user.Some? && Validate(raw, isEmail, refinesAfterFieldIssues).Failure? ==>
                && result == Rejected(InvalidFormMessage, Some(Validate(raw, isEmail, refinesAfterFieldIssues).error))
                && unchanged(this)
      ensures user.Some? && Validate(raw, isEmail, refinesAfterFieldIssues).Success?
              && (fault != NoFault || newId in Ids(old(buyers))) ==>
                result == Rejected(CreateFailedMessage, None) && unchanged(this)
      ensures user.Some? && Validate(raw, isEmail, refinesAfterFieldIssues).Success?
              && fault == NoFault && newId !in Ids(old(buyers)) ==>
                var b := NewBuyer(Validate(raw, isEmail, refinesAfterFieldIssues).value, newId, user.value.id);
                && result == Redirected(BuyersPath)
                && buyers == old(buyers) + [b]
                && history == old(history) + [HistoryEntry(newId, ChangedBy(user.value), Created(b))]
                && HistoryCount(history, newId) == 1
      ensures result.Rejected? ==> unchanged(this)
    {
      if user.None? {
        return Rejected(AuthRequiredMessage, None);
      }
      var parsed := Validate(raw, isEmail, refinesAfterFieldIssues);
      if parsed.Failure? {
        return Rejected(InvalidFormMessage, Some(parsed.error));
      }
      var lead := parsed.value;
      var tagList := TagsOf(lead.tags);

      // inside the transaction: nothing is written until both inserts succeed
      if fault == BuyerInsertFails || newId in Ids(buyers) {
        return Rejected(CreateFailedMessage, None);
      }
      var newBuyer := Buyer(newId, lead.fullName, lead.email, lead.phone, lead.city, lead.propertyType,
                            lead.purpose, lead.timeline, lead.source, lead.budgetMin, lead.budgetMax,
                            lead.notes, StoredBhk(lead.bhk), tagList, user.value.id);
      if fault == HistoryInsertFails {
        return Rejected(CreateFailedMessage, None);
      }
      var entry := HistoryEntry(newBuyer.id, ChangedBy(user.value), Created(newBuyer));
      Commit(newBuyer, entry);
      return Redirected(BuyersPath);
    }

    /** The commit of the transaction: a fresh buyer and its creation row are
        written together, which keeps the store consistent, and the new buyer
        then has exactly one history row. */
    method Commit(b: Buyer, entry: HistoryEntry)
      requires Valid()
      requires entry.buyerId == b.id && entry.diff == Created(b)
      requires b.id !in Ids(buyers)
      modifies this
      ensures buyers == old(buyers) + [b] && history == old(history) + [entry]
      ensures Valid()
      ensures HistoryCount(history, b.id) == 1
    {
      NewBuyerHistoryOnce(history, Ids(buyers), entry);
      AppendKeepsConsistent(buyers, history, b, entry);
      buyers, history := buyers + [b], history + [entry];
    }
  }
}
