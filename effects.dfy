/** The controller's externally visible actions, in the order it performs
    them: pump actuations and stops, the board LED, and bringing the access
    point and the web server up and down. */
module Effects {
  import opened Floats

  datatype Effect =
    | PumpRun(plant: nat, secs: Float)
    | PumpStop(plant: nat)
    | Led(on: bool)
    | AccessPointUp
    | ServerUp
    | ServerDown
    | AccessPointDown
}
