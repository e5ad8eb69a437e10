/**
 * Sensor auto-detection (sensor/detection.py): one transfer asks the chip
 * for its product id, which selects the chip model. The result here is the
 * model's tag rather than a live driver object.
 */
module Detection {
  import opened Wrappers
  import opened Sensor

  /** The chip models the package has drivers for. */
  datatype ChipKind = Em7795 | Em7790 | Em7788 | Em7792

  /** The transfer that asks for the product id: a read of address 0, then the idle byte. */
  const IdProbe: seq<int> := [0x80, 0x80]

  /** The product id each model answers with. */
  function ChipId(k: ChipKind): (id: int)
    ensures 0 <= id < 256
  {
    match k
    case Em7795 => 0x95
    case Em7790 => 0x90
    case Em7788 => 0x88
    case Em7792 => 0x92
  }

  /** The `sensor_id` table: the model with that product id, if any. */
  function KindOfId(id: int): (k: Option<ChipKind>)
    ensures k.Some? ==> ChipId(k.value) == id
  {
    if id == 0x95 then Some(Em7795)
    else if id == 0x90 then Some(Em7790)
    else if id == 0x88 then Some(Em7788)
    else if id == 0x92 then Some(Em7792)
    else None
  }

  /** Every model is found under its own id, and no two models share one. */
  lemma {:induction false} KindOfIdInverts(k: ChipKind, id: int)
    ensures KindOfId(ChipId(k)) == Some(k)
    ensures KindOfId(id).None? <==> forall m: ChipKind :: ChipId(m) != id
  {
    if KindOfId(id).None? {
      forall m: ChipKind ensures ChipId(m) != id {
        match m
        case Em7795 =>
        case Em7790 =>
        case Em7788 =>
        case Em7792 =>
      }
    } else {
      assert ChipId(KindOfId(id).value) == id;
    }
  }

  /**
   * `sensor_autodetect(interface)`: no answer detects nothing; an answer
   * too short to hold byte 1 raises IndexError; otherwise byte 1 is looked
   * up among the product ids, and an unknown id detects nothing.
   */
  function Detect(bus: Bus): (r: (Bus, Result<Option<ChipKind>>))
    ensures r.0 == Transmit(bus, IdProbe).0
    ensures r.1.Raised? ==> r.1.exc == IndexError
    ensures r.1.Ok? && r.1.value.Some? ==>
      var sdi := Transmit(bus, IdProbe).1;
      sdi.Some? && |sdi.value| >= 2 && sdi.value[1] == ChipId(r.1.value.value)
  {
    var t := Transmit(bus, IdProbe);
    match t.1
    case None => (t.0, Ok(None))
    case Some(sdi) =>
      if |sdi| < 2 then (t.0, Raised(IndexError))
      else (t.0, Ok(KindOfId(sdi[1])))
  }

  /** A chip answering with its product id in byte 1 is detected as its model. */
  lemma {:induction false} DetectAnswered(bus: Bus, k: ChipKind, first: int, rest: seq<int>)
    requires bus.replies != [] && bus.replies[0] == Some([first, ChipId(k)] + rest)
    ensures Detect(bus).1 == Ok(Some(k))
    ensures Detect(bus).0.log == bus.log + [Transfer(IdProbe)]
  {
    KindOfIdInverts(k, ChipId(k));
  }

  /** Detection finds nothing exactly when no answer came or its byte 1 is no model's id. */
  lemma {:induction false} DetectNothing(bus: Bus)
    requires Detect(bus).1.Ok?
    ensures Detect(bus).1 == Ok(None) <==>
      var sdi := Transmit(bus, IdProbe).1;
      sdi.None? || forall m: ChipKind :: ChipId(m) != sdi.value[1]
  {
    var sdi := Transmit(bus, IdProbe).1;
    if sdi.Some? {
      KindOfIdInverts(Em7795, sdi.value[1]);
    }
  }
}
