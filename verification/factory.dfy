/**
 The factory demo: a dialog factory maps each kind of dialog request to the
 one dialog object of that kind.
 */
module Factory {

  /** The kinds of dialog a caller can ask for. */
  datatype DialogType = CREATE | EDIT | DELETE

  /** The closed family of dialogs; each variant is a singleton object. */
  datatype Dialog = Create | Edit | Delete

  /** `DialogFactory.createDialog`: defined for every dialog type. */
  function CreateDialog(t: DialogType): (d: Dialog)
    ensures t == CREATE <==> d == Create
    ensures t == EDIT <==> d == Edit
    ensures t == DELETE <==> d == Delete
  {
    match t
    case CREATE => Create
    case EDIT => Edit
    case DELETE => Delete
  }

  /** The dialog type a dialog was made for: every dialog is produced by the
      factory from this type, so the factory is onto. */
  function TypeOf(d: Dialog): (t: DialogType)
    ensures CreateDialog(t) == d
  {
    match d
    case Create => CREATE
    case Edit => EDIT
    case Delete => DELETE
  }

  /** Distinct dialog types give distinct dialogs. */
  lemma CreateDialogInjective(t1: DialogType, t2: DialogType)
    ensures CreateDialog(t1) == CreateDialog(t2) ==> t1 == t2
  {
  }

  /** `TypeOf` undoes the factory, so the factory is a bijection. */
  lemma TypeOfCreateDialog(t: DialogType)
    ensures TypeOf(CreateDialog(t)) == t
  {
  }

  /** Every dialog variant is produced by some dialog type. */
  lemma CreateDialogSurjective(d: Dialog)
    ensures exists t :: CreateDialog(t) == d
  {
    assert CreateDialog(TypeOf(d)) == d;
  }
}
