/**
 * The appointment store as the request handlers use it. The persisted list is the field
 * `items`; since every handler that changes the list reloads all of it, mutates it and writes
 * all of it back,
 * the field stands for the file's content, and `saves` counts the calls of
 * `save_agendamentos`, so that a handler which finds nothing is seen to write nothing.
 */
module AppointmentStore {
  import opened Appointments

  class Store {
    var items: seq<Appointment>
    var saves: nat

    /** A first run: the missing file loads as the empty list. */
    constructor ()
      ensures items == [] && saves == 0
    {
      items := [];
      saves := 0;
    }

    /** `solicitar_agendamento`: append a new Pendente record with id `len + 1` and save. */
    method Create(nome: string, telefone: string, placa: string, tipoLavagem: string,
                  opcoesServicos: seq<string>, now: string) returns (a: Appointment)
      modifies this
      ensures a == NewAppointment(old(items), nome, telefone, placa, tipoLavagem, opcoesServicos, now)
      ensures items == old(items) + [a]
      ensures saves == old(saves) + 1
      ensures DenseIds(old(items)) ==> DenseIds(items)
    {
      a := NewAppointment(items, nome, telefone, placa, tipoLavagem, opcoesServicos, now);
      items := items + [a];
      saves := saves + 1;
    }

    /**
     * Write `status` into the first record with the id and save; do nothing when there is none.
     * Shared by `aceitar_agendamento` and `atualizar_status_agendamento`.
     */
    method UpdateStatus(id: int, status: string) returns (found: bool)
      modifies this
      ensures found <==> HasId(old(items), id)
      ensures items == WithStatus(old(items), id, status)
      ensures saves == old(saves) + if found then 1 else 0
      ensures DenseIds(old(items)) ==> DenseIds(items)
    {
      match FirstIndex(items, id)
      case None =>
        found := false;
      case Some(i) =>
        items := items[i := items[i].(status := status)];
        saves := saves + 1;
        found := true;
    }

    /** `aceitar_agendamento`: the first record with the id becomes Aceito. */
    method Accept(id: int) returns (found: bool)
      modifies this
      ensures found <==> HasId(old(items), id)
      ensures items == WithStatus(old(items), id, Aceito)
      ensures saves == old(saves) + if found then 1 else 0
    {
      found := UpdateStatus(id, Aceito);
    }

    /** `atualizar_status_agendamento`: any status string, no transition table. */
    method SetStatus(id: int, status: string) returns (found: bool)
      modifies this
      ensures found <==> HasId(old(items), id)
      ensures items == WithStatus(old(items), id, status)
      ensures saves == old(saves) + if found then 1 else 0
    {
      found := UpdateStatus(id, status);
    }

    /** `editar_agendamento` (POST): overwrite every field but the id of the first match and save. */
    method Edit(id: int, form: EditForm) returns (found: bool)
      modifies this
      ensures found <==> HasId(old(items), id)
      ensures items == Edited(old(items), id, form)
      ensures saves == old(saves) + if found then 1 else 0
      ensures DenseIds(old(items)) ==> DenseIds(items)
    {
      match FirstIndex(items, id)
      case None =>
        found := false;
      case Some(i) =>
        items := items[i := Overwrite(items[i], form)];
        saves := saves + 1;
        found := true;
    }
  }
}
