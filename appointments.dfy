/**
 * Appointment ("agendamento") records and the pure rules the store applies to its list:
 * the first-match lookup by id, id assignment on creation, the full-overwrite edit and
 * the status change. The mutating store itself is in module AppointmentStore.
 */
module Appointments {
  import opened Wrappers
  import opened PyText

  /** One stored record; the field names are the keys of the persisted JSON document. */
  datatype Appointment = Appointment(
    id: int,
    nome: string,
    telefone: string,
    placa: string,
    tipoLavagem: string,
    opcoesServicos: string,  // the chosen services, joined with ", "
    data: string,            // the timestamp, "%Y-%m-%d %H:%M:%S" when set on creation
    status: string)

  /** The status of a new request, and the status set by accepting it. */
  const Pendente: string := "Pendente"
  const Aceito: string := "Aceito"

  /** The fields posted by the edit form; all of them are written back. */
  datatype EditForm = EditForm(
    nome: string,
    telefone: string,
    placa: string,
    tipoLavagem: string,
    opcoesServicos: seq<string>,
    data: string,
    status: string)

  /** Some record of `items` has this id. */
  ghost predicate HasId(items: seq<Appointment>, id: int)
  {
    exists j :: 0 <= j < |items| && items[j].id == id
  }

  /**
   * The position `next((ag for ag in items if ag['id'] == id), None)` stops at:
   * the first record with this id, or none.
   */
  function FirstIndex(items: seq<Appointment>, id: int): (r: Option<nat>)
    ensures r.None? <==> !HasId(items, id)
    ensures r.Some? ==> r.value < |items| && items[r.value].id == id
    ensures r.Some? ==> forall j :: 0 <= j < r.value ==> items[j].id != id
  {
    if items == [] then None
    else if items[0].id == id then Some(0)
    else match FirstIndex(items[1..], id)
      case None => None
      case Some(k) => Some(k + 1)
  }

  /** The record the lookup by id finds: the first one in list order carrying that id. */
  function Lookup(items: seq<Appointment>, id: int): (r: Option<Appointment>)
    ensures r.None? <==> !HasId(items, id)
    ensures r.Some? ==> r.value.id == id
    ensures r.Some? ==>
      exists j :: 0 <= j < |items| && items[j] == r.value && forall k :: 0 <= k < j ==> items[k].id != id
  {
    match FirstIndex(items, id)
    case None => None
    case Some(i) => Some(items[i])
  }

  /** Only the ids of a list decide where the scan stops. */
  lemma {:induction false} FirstIndexDependsOnIds(items: seq<Appointment>, other: seq<Appointment>, id: int)
    requires |items| == |other|
    requires forall j :: 0 <= j < |items| ==> items[j].id == other[j].id
    ensures FirstIndex(items, id) == FirstIndex(other, id)
  {
    if items != [] {
      FirstIndexDependsOnIds(items[1..], other[1..], id);
    }
  }

  /** Appending a record changes the scan only when no earlier record has the id. */
  lemma {:induction false} FirstIndexAppend(items: seq<Appointment>, a: Appointment, id: int)
    ensures FirstIndex(items + [a], id) ==
      if FirstIndex(items, id).Some? then FirstIndex(items, id)
      else if a.id == id then Some(|items|)
      else None
  {
    if items != [] {
      assert (items + [a])[1..] == items[1..] + [a];
      FirstIndexAppend(items[1..], a, id);
    }
  }

  /** The record `solicitar_agendamento` appends: id `len + 1`, services joined, status Pendente. */
  function NewAppointment(items: seq<Appointment>, nome: string, telefone: string, placa: string,
                          tipoLavagem: string, opcoesServicos: seq<string>, now: string): (a: Appointment)
    ensures a.id == |items| + 1 && a.status == Pendente && a.data == now
    ensures a.nome == nome && a.telefone == telefone && a.placa == placa && a.tipoLavagem == tipoLavagem
    ensures a.opcoesServicos == Join(", ", opcoesServicos)
  {
    Appointment(|items| + 1, nome, telefone, placa, tipoLavagem, Join(", ", opcoesServicos), now, Pendente)
  }

  /**
   * The record of a new request can be reached by its id exactly when no stored record already
   * carries `len + 1`; otherwise the next lookup of that id returns the older record.
   */
  lemma CreatedReachableIffIdFree(items: seq<Appointment>, nome: string, telefone: string, placa: string,
                                  tipoLavagem: string, opcoesServicos: seq<string>, now: string)
    ensures var a := NewAppointment(items, nome, telefone, placa, tipoLavagem, opcoesServicos, now);
      (!HasId(items, a.id) ==> Lookup(items + [a], a.id) == Some(a)) &&
      (HasId(items, a.id) ==> Lookup(items + [a], a.id) == Lookup(items, a.id))
  {
    var a := NewAppointment(items, nome, telefone, placa, tipoLavagem, opcoesServicos, now);
    FirstIndexAppend(items, a, a.id);
  }

  /** A concrete collision: with record 1 gone from the file, the next request is given id 2 again. */
  lemma CreateAfterRemovalDuplicatesId()
    ensures var old2 := Appointment(2, "Ana", "", "ABC-1234", "Simples", "", "2024-05-01 10:00:00", Aceito);
      var a := NewAppointment([old2], "Bia", "", "XYZ-9876", "Completa", [], "2024-05-02 09:00:00");
      a.id == old2.id && Lookup([old2] + [a], 2) == Some(old2)
  {
    var old2 := Appointment(2, "Ana", "", "ABC-1234", "Simples", "", "2024-05-01 10:00:00", Aceito);
    var a := NewAppointment([old2], "Bia", "", "XYZ-9876", "Completa", [], "2024-05-02 09:00:00");
    assert ([old2] + [a])[0] == old2;
  }

  /** The ids of a list are 1, 2, ..., n in order: what creating from an empty list produces. */
  ghost predicate DenseIds(items: seq<Appointment>)
  {
    forall j :: 0 <= j < |items| ==> items[j].id == j + 1
  }

  /** Under dense ids the stored ids are pairwise distinct, and lookup by id is by position. */
  lemma DenseIdsAreUnique(items: seq<Appointment>, id: int)
    requires DenseIds(items)
    ensures forall j, k :: 0 <= j < k < |items| ==> items[j].id != items[k].id
    ensures FirstIndex(items, id) == if 1 <= id <= |items| then Some(id - 1) else None
  {
    if 1 <= id <= |items| {
      assert items[id - 1].id == id;
    }
  }

  /** Creating keeps the ids dense, so purely sequential creation never duplicates an id. */
  lemma CreatePreservesDenseIds(items: seq<Appointment>, nome: string, telefone: string, placa: string,
                                tipoLavagem: string, opcoesServicos: seq<string>, now: string)
    requires DenseIds(items)
    ensures DenseIds(items + [NewAppointment(items, nome, telefone, placa, tipoLavagem, opcoesServicos, now)])
  {
  }

  /**
   * The list after `agendamento['status'] = status` on the first record with the id;
   * the list itself when there is none.
   */
  function WithStatus(items: seq<Appointment>, id: int, status: string): (r: seq<Appointment>)
    ensures |r| == |items|
    ensures forall j :: 0 <= j < |r| ==> r[j].id == items[j].id
    ensures !HasId(items, id) ==> r == items
  {
    match FirstIndex(items, id)
    case None => items
    case Some(i) => items[i := items[i].(status := status)]
  }

  /**
   * Setting a status touches the status field of the first record with the id and nothing else:
   * every other record, and every other field of that one, is as before.
   */
  lemma WithStatusFrame(items: seq<Appointment>, id: int, status: string, j: nat)
    requires j < |items|
    ensures var r := WithStatus(items, id, status);
      r[j] == if items[j].id == id && forall k :: 0 <= k < j ==> items[k].id != id
              then items[j].(status := status) else items[j]
  {
    var f := FirstIndex(items, id);
    if f.Some? && f.value != j {
      if f.value < j {
        assert items[f.value].id == id;
      }
    }
  }

  /** Setting the same status twice (accepting twice, say) is setting it once. */
  lemma WithStatusIdempotent(items: seq<Appointment>, id: int, status: string)
    ensures WithStatus(WithStatus(items, id, status), id, status) == WithStatus(items, id, status)
  {
    FirstIndexDependsOnIds(items, WithStatus(items, id, status), id);
  }

  /** The full overwrite of the edit form: every field but `id` is replaced. */
  function Overwrite(a: Appointment, form: EditForm): (r: Appointment)
    ensures r.id == a.id
    ensures r.nome == form.nome && r.telefone == form.telefone && r.placa == form.placa
    ensures r.tipoLavagem == form.tipoLavagem && r.data == form.data && r.status == form.status
    ensures r.opcoesServicos == Join(", ", form.opcoesServicos)
  {
    Appointment(a.id, form.nome, form.telefone, form.placa, form.tipoLavagem,
                Join(", ", form.opcoesServicos), form.data, form.status)
  }

  /** The list after the edit form is applied to the first record with the id. */
  function Edited(items: seq<Appointment>, id: int, form: EditForm): (r: seq<Appointment>)
    ensures |r| == |items|
    ensures forall j :: 0 <= j < |r| ==> r[j].id == items[j].id
    ensures !HasId(items, id) ==> r == items
  {
    match FirstIndex(items, id)
    case None => items
    case Some(i) => items[i := Overwrite(items[i], form)]
  }

  /** The edit replaces the first record with the id, keeping its id, and leaves the others alone. */
  lemma EditedFrame(items: seq<Appointment>, id: int, form: EditForm, j: nat)
    requires j < |items|
    ensures var r := Edited(items, id, form);
      r[j] == if items[j].id == id && forall k :: 0 <= k < j ==> items[k].id != id
              then Overwrite(items[j], form) else items[j]
  {
    var f := FirstIndex(items, id);
    if f.Some? && f.value < j {
      assert items[f.value].id == id;
    }
  }

  /** Posting the same edit twice gives the same list as posting it once. */
  lemma EditedIdempotent(items: seq<Appointment>, id: int, form: EditForm)
    ensures Edited(Edited(items, id, form), id, form) == Edited(items, id, form)
  {
    FirstIndexDependsOnIds(items, Edited(items, id, form), id);
  }

  /** Neither edits nor status changes touch ids, so dense ids stay dense. */
  lemma UpdatesPreserveDenseIds(items: seq<Appointment>, id: int, status: string, form: EditForm)
    requires DenseIds(items)
    ensures DenseIds(WithStatus(items, id, status))
    ensures DenseIds(Edited(items, id, form))
  {
  }
}
