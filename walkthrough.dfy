/**
 * A client of the store and the report filter: one request is created, accepted and found
 * again by a status report, and an id that was never handed out is not found.
 */
module Walkthrough {
  import opened Appointments
  import opened AppointmentStore
  import opened Reports

  method CreateAcceptReport()
  {
    var store := new Store();
    var a := store.Create("Maria", "11 99999-0000", "XYZ-9876", "Completa", ["Cera"], "2024-06-01 10:00:00");
    assert a.id == 1 && a.status == Pendente;

    var found := store.Accept(1);
    assert found;
    var accepted := a.(status := Aceito);
    assert store.items == [accepted];
    assert store.saves == 2;

    var report := Results(store.items, ReportForm("", "", "", [Aceito]));
    assert Matches(ReportForm("", "", "", [Aceito]), accepted);
    assert report == [accepted];

    found := store.Accept(2);
    assert !found && store.items == [accepted] && store.saves == 2;
    assert Lookup(store.items, 2).None?;
  }
}
