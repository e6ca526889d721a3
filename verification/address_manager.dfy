/** The saved-address manager of the account page
    (src/components/AddressManager.tsx): the address list, and a form that
    is either adding a new address or editing an existing one. The remote
    calls are replaced by their outcomes. */
module AddressManager {
  import opened Wrappers
  import Validation

  /** A saved address as the server returns it. */
  datatype Address = Address(id: string, name: string, details: string, phone: string, city: string)

  /** The form's values after `reset()`: every field empty. */
  const BlankDraft := Validation.AddressForm("", "", "", "")

  datatype Ui = Ui(
    addresses: seq<Address>,
    loading: bool,
    editingId: Option<string>,
    showForm: bool,
    draft: Validation.AddressForm)

  /** The component as first rendered: loading, no addresses, adding mode. */
  const Initial := Ui([], true, None, false, BlankDraft)

  /** The form edits an existing address exactly when `editingId` is truthy. */
  predicate Editing(ui: Ui) {
    Truthy(ui.editingId)
  }

  /** The save call a submission makes. */
  datatype SaveCall = UpdateCall(addressId: string, data: Validation.AddressForm)
                    | AddCall(data: Validation.AddressForm)

  /** `fetchAddresses()`: a successful reply replaces the list, a failure
      keeps it; loading ends false either way and nothing else changes. */
  function FetchAddresses(ui: Ui, reply: Outcome<seq<Address>>): (r: Ui)
    ensures !r.loading
    ensures reply.Ok? ==> r.addresses == reply.value
    ensures reply.Err? ==> r.addresses == ui.addresses
    ensures r.editingId == ui.editingId && r.showForm == ui.showForm && r.draft == ui.draft
  {
    match reply
    case Ok(list) => ui.(addresses := list, loading := false)
    case Err(_) => ui.(loading := false)
  }

  datatype Submitted = Submitted(call: SaveCall, ui: Ui)

  /** `onSubmit(data)`: update the address being edited, or add a new one.
      After a successful save the edit ends, the form is cleared and hidden
      and the list refetched; after a failed one nothing changes. */
  function OnSubmit(ui: Ui, data: Validation.AddressForm, saved: Outcome<()>,
                    refetch: Outcome<seq<Address>>): (r: Submitted)
    ensures Editing(ui) ==> r.call == UpdateCall(ui.editingId.value, data)
    ensures !Editing(ui) ==> r.call == AddCall(data)
    ensures saved.Err? ==> r.ui == ui
    ensures saved.Ok? ==>
      && !Editing(r.ui) && !r.ui.showForm && r.ui.draft == BlankDraft && !r.ui.loading
      && (Editing(ui) ==> r.ui.editingId.None?)
      && (!Editing(ui) ==> r.ui.editingId == ui.editingId)
      && (refetch.Ok? ==> r.ui.addresses == refetch.value)
      && (refetch.Err? ==> r.ui.addresses == ui.addresses)
  {
    var call := if Editing(ui) then UpdateCall(ui.editingId.value, data) else AddCall(data);
    match saved
    case Err(_) => Submitted(call, ui)
    case Ok(_) =>
      var cleared := if Editing(ui) then ui.(editingId := None) else ui;
      var hidden := cleared.(draft := BlankDraft, showForm := false);
      Submitted(call, FetchAddresses(hidden.(loading := true), refetch))
  }

  /** Submitting through the form: the schema is checked first, and an
      invalid draft reaches no handler. */
  function SubmitForm(ui: Ui, saved: Outcome<()>, refetch: Outcome<seq<Address>>): (r: Option<Submitted>)
    ensures r.Some? <==> Validation.AddressValid(ui.draft)
    ensures r.Some? ==> r.value == OnSubmit(ui, ui.draft, saved, refetch)
  {
    if Validation.AddressIssues(ui.draft) == [] then Some(OnSubmit(ui, ui.draft, saved, refetch))
    else None
  }

  /** The form's values for an existing address. */
  function DraftOf(a: Address): Validation.AddressForm {
    Validation.AddressForm(a.name, a.details, a.phone, a.city)
  }

  /** `handleEdit(address)`: edit that address, with its four fields in the
      form, and show the form. The list is untouched. */
  function HandleEdit(ui: Ui, a: Address): (r: Ui)
    ensures r.editingId == Some(a.id) && r.showForm
    ensures r.draft.name == a.name && r.draft.details == a.details
    ensures r.draft.phone == a.phone && r.draft.city == a.city
    ensures r.addresses == ui.addresses && r.loading == ui.loading
  {
    ui.(editingId := Some(a.id), draft := DraftOf(a), showForm := true)
  }

  /** `handleCancel()`: hide the form, stop editing, clear the form. */
  function HandleCancel(ui: Ui): (r: Ui)
    ensures !r.showForm && !Editing(r) && r.draft == BlankDraft
    ensures r.addresses == ui.addresses && r.loading == ui.loading
  {
    ui.(showForm := false, editingId := None, draft := BlankDraft)
  }

  /** Cancelling an edit leaves the component as cancelling without it. */
  lemma EditThenCancel(ui: Ui, a: Address)
    ensures HandleCancel(HandleEdit(ui, a)) == HandleCancel(ui)
  {
  }

  /** Editing a stored address and saving the unchanged, valid draft sends
      an update for that address's id with its own fields, and on success
      returns the form to adding mode, hidden and cleared. */
  lemma EditThenSave(ui: Ui, a: Address, refetch: Outcome<seq<Address>>)
    requires a.id != ""
    requires Validation.AddressValid(DraftOf(a))
    ensures
      var r := SubmitForm(HandleEdit(ui, a), Ok(()), refetch);
      && r.Some?
      && r.value.call == UpdateCall(a.id, DraftOf(a))
      && r.value.ui.editingId.None? && !r.value.ui.showForm && r.value.ui.draft == BlankDraft
  {
  }

  /** A submission while adding leaves `editingId` as it was, so the mode
      stays "adding" whatever the outcome. */
  lemma AddingStaysAdding(ui: Ui, data: Validation.AddressForm, saved: Outcome<()>,
                          refetch: Outcome<seq<Address>>)
    requires !Editing(ui)
    ensures !Editing(OnSubmit(ui, data, saved, refetch).ui)
  {
  }

  datatype Deleted = Deleted(call: Option<string>, ui: Ui)

  /** `handleDelete(addressId)`: nothing happens unless the user confirms;
      a failed delete changes nothing; a successful one refetches the list. */
  function HandleDelete(ui: Ui, addressId: string, confirmed: bool, deleted: Outcome<()>,
                        refetch: Outcome<seq<Address>>): (r: Deleted)
    ensures !confirmed ==> r.call.None? && r.ui == ui
    ensures confirmed ==> r.call == Some(addressId)
    ensures confirmed && deleted.Err? ==> r.ui == ui
    ensures confirmed && deleted.Ok? ==> r.ui == FetchAddresses(ui.(loading := true), refetch)
  {
    if !confirmed then Deleted(None, ui)
    else match deleted
      case Err(_) => Deleted(Some(addressId), ui)
      case Ok(_) => Deleted(Some(addressId), FetchAddresses(ui.(loading := true), refetch))
  }
}
