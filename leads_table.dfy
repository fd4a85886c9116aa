/**
 * The leads table: the badge colour of a status, and the delete flow, a small
 * state machine over the list of leads and the confirmation modal
 * (closed, then open on one lead, then confirmed or cancelled).
 */
module LeadsTable {
  import opened Wrappers

  /** The columns of a lead the delete flow and the badge read. The other
      columns are only displayed. */
  datatype TableLead = TableLead(id: int, name: string, status: string)

  /** The `deleteModal` state. */
  datatype DeleteModal = DeleteModal(isOpen: bool, leadId: Option<int>, leadName: string)

  const ClosedModal := DeleteModal(false, None, "")

  const Statuses: seq<string> := ["new", "contacted", "qualified", "converted", "lost"]
  const DefaultColor := "bg-gray-100 text-gray-800"

  /** `getStatusColor(status)`. */
  function StatusColor(status: string): (r: string)
    ensures status !in Statuses ==> r == DefaultColor
  {
    match status
    case "new" => "bg-blue-100 text-blue-800"
    case "contacted" => "bg-yellow-100 text-yellow-800"
    case "qualified" => "bg-green-100 text-green-800"
    case "converted" => "bg-purple-100 text-purple-800"
    case "lost" => "bg-red-100 text-red-800"
    case _ => DefaultColor
  }

  /** The fixed colour of each listed status. */
  lemma ListedColors()
    ensures StatusColor("new") == "bg-blue-100 text-blue-800"
    ensures StatusColor("contacted") == "bg-yellow-100 text-yellow-800"
    ensures StatusColor("qualified") == "bg-green-100 text-green-800"
    ensures StatusColor("converted") == "bg-purple-100 text-purple-800"
    ensures StatusColor("lost") == "bg-red-100 text-red-800"
  {
  }

  /** The default colour is given exactly to the unlisted statuses. */
  lemma DefaultColorIff(status: string)
    ensures StatusColor(status) == DefaultColor <==> status !in Statuses
  {
  }

  /** `leads.filter(lead => lead.id !== id)`. */
  function WithoutId(leads: seq<TableLead>, id: int): (r: seq<TableLead>)
    ensures |r| <= |leads|
    ensures forall i :: 0 <= i < |r| ==> r[i].id != id
  {
    if leads == [] then []
    else (if leads[0].id != id then [leads[0]] else []) + WithoutId(leads[1..], id)
  }

  /** A lead survives exactly when its id differs from the removed one. */
  lemma {:induction false} WithoutIdMembers(leads: seq<TableLead>, id: int, x: TableLead)
    ensures x in WithoutId(leads, id) <==> x in leads && x.id != id
  {
    if leads != [] {
      WithoutIdMembers(leads[1..], id, x);
      assert leads == [leads[0]] + leads[1..];
    }
  }

  /** Filtering works piecewise, so the surviving leads keep their order. */
  lemma {:induction false} WithoutIdAppend(a: seq<TableLead>, b: seq<TableLead>, id: int)
    ensures WithoutId(a + b, id) == WithoutId(a, id) + WithoutId(b, id)
  {
    if a == [] {
      assert a + b == b;
    } else {
      assert (a + b)[0] == a[0];
      assert (a + b)[1..] == a[1..] + b;
      WithoutIdAppend(a[1..], b, id);
    }
  }

  /** When no lead has the id, nothing is removed. */
  lemma {:induction false} WithoutAbsentId(leads: seq<TableLead>, id: int)
    requires forall i :: 0 <= i < |leads| ==> leads[i].id != id
    ensures WithoutId(leads, id) == leads
  {
    if leads != [] {
      WithoutAbsentId(leads[1..], id);
      assert leads == [leads[0]] + leads[1..];
    }
  }

  /** Removing the same id twice removes nothing more. */
  lemma WithoutIdIdempotent(leads: seq<TableLead>, id: int)
    ensures WithoutId(WithoutId(leads, id), id) == WithoutId(leads, id)
  {
    WithoutAbsentId(WithoutId(leads, id), id);
  }

  /** `if (deleteModal.leadId)`: null and 0 are both falsy. */
  predicate Truthy(leadId: Option<int>) {
    leadId.Some? && leadId.value != 0
  }

  class LeadsTableState {
    var leads: seq<TableLead>
    var deleteModal: DeleteModal

    /** A closed modal names no lead. */
    ghost predicate Valid()
      reads this
    {
      !deleteModal.isOpen ==> deleteModal == ClosedModal
    }

    constructor(initial: seq<TableLead>)
      ensures Valid()
      ensures leads == initial && deleteModal == ClosedModal
    {
      leads := initial;
      deleteModal := ClosedModal;
    }

    /** `handleDeleteClick(leadId, leadName)`: open the modal on that lead. */
    method HandleDeleteClick(leadId: int, leadName: string)
      requires Valid()
      modifies this
      ensures Valid()
      ensures deleteModal == DeleteModal(true, Some(leadId), leadName)
      ensures unchanged(this`leads)
    {
      deleteModal := DeleteModal(true, Some(leadId), leadName);
    }

    /** `handleDeleteConfirm()`: with a truthy lead id, remove every lead with
        that id and close the modal; otherwise do nothing. */
    method HandleDeleteConfirm()
      requires Valid()
      modifies this
      ensures Valid()
      ensures Truthy(old(deleteModal.leadId)) ==>
                leads == WithoutId(old(leads), old(deleteModal.leadId.value)) && deleteModal == ClosedModal
      ensures !Truthy(old(deleteModal.leadId)) ==> unchanged(this)
      ensures !old(deleteModal.isOpen) ==> unchanged(this)
    {
      if deleteModal.leadId.Some? && deleteModal.leadId.value != 0 {
        leads := WithoutId(leads, deleteModal.leadId.value);
        deleteModal := ClosedModal;
      }
    }

    /** `handleDeleteCancel()`: close the modal, keep every lead. */
    method HandleDeleteCancel()
      requires Valid()
      modifies this
      ensures Valid()
      ensures deleteModal == ClosedModal
      ensures unchanged(this`leads)
    {
      deleteModal := ClosedModal;
    }
  }
}
