/** An alarm that the application itself drops. */
module LostAlarm {
  import opened ArList
  import opened ArEvents
  import opened EventFate
  import opened App

  /** The application drops an alarm that comes with the periodic work of a round with an abort. */
  method LosesAlarm(maxAr: nat, arep: Arep) returns (app: App)
    requires 1 <= maxAr < 0x8000 && arep != FREE
    ensures fresh(app) && app.Valid() && app.List() == [] && Handled(Alarm, arep) !in app.log
  {
    AlarmIsDropped(maxAr, arep);
    ghost var flags, labels;
    app, flags, labels := LoopForever(maxAr, [LosingTurn(arep)]);
  }
}
