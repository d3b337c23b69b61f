/** `getSerialConfig`: the serial port settings built from the configuration
    table. The parity is read case-insensitively; the data bits and stop
    bits are truncated to a byte as Go's conversions do. */
module SerialConfig {
  import opened Ints
  import opened Strings

  /** The parity settings of the serial library, with their byte codes. */
  datatype Parity = ParityNone | ParityOdd | ParityEven | ParityMark | ParitySpace

  function ParityCode(p: Parity): uint8 {
    match p
    case ParityNone => 'N' as int
    case ParityOdd => 'O' as int
    case ParityEven => 'E' as int
    case ParityMark => 'M' as int
    case ParitySpace => 'S' as int
  }

  /** Distinct parities have distinct codes, and the code is the letter. */
  lemma ParityCodes(p: Parity, q: Parity)
    ensures p != q ==> ParityCode(p) != ParityCode(q)
    ensures ParityCode(p) == Letter(p)[0] as int
  {
  }

  /** The one-letter and the full upper-case name of each parity. */
  function Letter(p: Parity): string {
    match p
    case ParityNone => "N"
    case ParityOdd => "O"
    case ParityEven => "E"
    case ParityMark => "M"
    case ParitySpace => "S"
  }

  function Word(p: Parity): string {
    match p
    case ParityNone => "NONE"
    case ParityOdd => "ODD"
    case ParityEven => "EVEN"
    case ParityMark => "MARK"
    case ParitySpace => "SPACE"
  }

  /** The parity named by a configuration text; anything unrecognised,
      the empty text of an absent key included, is no parity. */
  function ParseParity(s: string): (p: Parity)
    ensures p != ParityNone ==> ToUpper(s) == Letter(p) || ToUpper(s) == Word(p)
    ensures forall q: Parity :: ToUpper(s) == Letter(q) || ToUpper(s) == Word(q) ==> p == q
  {
    var u := ToUpper(s);
    if u == "N" || u == "NONE" then ParityNone
    else if u == "O" || u == "ODD" then ParityOdd
    else if u == "E" || u == "EVEN" then ParityEven
    else if u == "M" || u == "MARK" then ParityMark
    else if u == "S" || u == "SPACE" then ParitySpace
    else ParityNone
  }

  /** Upper-casing an upper-case ASCII keyword changes nothing. */
  lemma UpperKeyword(s: string)
    requires forall i :: 0 <= i < |s| ==> 'A' <= s[i] <= 'Z'
    ensures ToUpper(s) == s
  {
  }

  /** Lower-casing the letters of a keyword and upper-casing them again gives
      the keyword back. */
  lemma LowerThenUpper(s: string)
    requires forall i :: 0 <= i < |s| ==> 'A' <= s[i] <= 'Z'
    ensures ToUpper(ToLower(s)) == s
  {
    assert forall i :: 0 <= i < |s| ==> ToLower(s)[i] as int == s[i] as int + 32;
  }

  /** Every parity is read back from its letter and its word, in upper or
      lower case. */
  lemma ParityNamesRead(p: Parity)
    ensures ParseParity(Letter(p)) == p
    ensures ParseParity(Word(p)) == p
    ensures ParseParity(ToLower(Word(p))) == p
  {
    UpperKeyword(Letter(p));
    UpperKeyword(Word(p));
    LowerThenUpper(Word(p));
  }

  /** The settings in the configuration table that the port is built from. */
  datatype SerialSettings = SerialSettings(
    serialPort: string,
    baudRate: int,
    dataBit: int,
    parity: string,
    stopBits: int)

  /** The serial library's configuration. */
  datatype PortConfig = PortConfig(
    name: string,
    baud: int,
    size: uint8,
    parity: Parity,
    stopBits: uint8,
    readTimeout: int)

  /** `getSerialConfig`: the port name and baud rate as given, data bits and
      stop bits truncated to a byte, the parsed parity, and the given read
      timeout. */
  function GetSerialConfig(s: SerialSettings, timeout: int): (c: PortConfig)
    ensures c.name == s.serialPort && c.baud == s.baudRate && c.readTimeout == timeout
    ensures 0 <= s.dataBit < 0x100 ==> c.size == s.dataBit
    ensures 0 <= s.stopBits < 0x100 ==> c.stopBits == s.stopBits
    ensures (c.size - s.dataBit) % 0x100 == 0 && (c.stopBits - s.stopBits) % 0x100 == 0
    ensures c.parity == ParseParity(s.parity)
  {
    PortConfig(s.serialPort, s.baudRate, ToUint8(s.dataBit), ParseParity(s.parity), ToUint8(s.stopBits), timeout)
  }
}
