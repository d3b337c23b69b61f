/** Shared event vocabulary of the device adapters (`extra` package). */
module Events {
  import opened Ints

  /** Direction bytes of a card-reader event. */
  const DirectIn: uint8 := 'I' as int
  const DirectOut: uint8 := 'O' as int

  const TypeNop := "NOP"
  const TypeCard := "CARD"
  const TypeButton := "BUTTON"
  const TypeOpen := "OPEN"
  const TypeClose := "CLOSE"
  const TypeAlarm := "ALARM"

  /** `DirectName`: "IN" for the inbound direction byte, "OUT" for every other byte. */
  function DirectName(dir: uint8): (r: string)
    ensures r == "IN" || r == "OUT"
    ensures r == "IN" <==> dir == DirectIn
    ensures dir == DirectOut ==> r == "OUT"
  {
    if dir == DirectIn then "IN" else "OUT"
  }
}
