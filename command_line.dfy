/** The argument handling at the top of both `main` functions: `argv[1]`
    selects the bus, `argv[2]` the slave address; both are read with `atoi`
    and stored into `uint8_t`, and the address must be one of the sensor's
    two fixed addresses. */
module CommandLine {
  import opened CTypes
  import opened LibC

  const DEFAULT_BUS: uint8 := 1

  datatype BusSettings = BusSettings(deviceNr: uint8, addr: uint8)

  /** `argv` includes the program name at index 0. On rejection the result
      carries the (truncated) address that was refused. */
  function ParseArgs(argv: seq<string>, primary: uint8, secondary: uint8): (r: Result<BusSettings, uint8>)
    ensures |argv| <= 1 ==> r == Success(BusSettings(DEFAULT_BUS, primary))
    ensures r.Success? <==>
              |argv| <= 2 || ToUint8(Atoi(argv[2])) == primary || ToUint8(Atoi(argv[2])) == secondary
    ensures r.Success? ==>
              r.value.deviceNr == (if |argv| > 1 then ToUint8(Atoi(argv[1])) else DEFAULT_BUS)
    ensures r.Success? ==> r.value.addr == (if |argv| > 2 then ToUint8(Atoi(argv[2])) else primary)
    ensures r.Success? ==> r.value.addr == primary || r.value.addr == secondary
    ensures r.Failure? ==> |argv| > 2 && r.error == ToUint8(Atoi(argv[2]))
  {
    var deviceNr := if |argv| > 1 then ToUint8(Atoi(argv[1])) else DEFAULT_BUS;
    if |argv| > 2 then
      var addr := ToUint8(Atoi(argv[2]));
      if addr != primary && addr != secondary then Failure(addr)
      else Success(BusSettings(deviceNr, addr))
    else
      Success(BusSettings(deviceNr, primary))
  }

  /** `atoi` of a one-digit argument. */
  lemma AtoiOneDigit(s: string)
    requires |s| == 1 && IsDigit(s[0])
    ensures Atoi(s) == DigitValue(s[0])
  {
    assert AllDigits(s);
    var none := s[..|s| - 1];
    assert none == [];
    assert DigitsValue(s) == DigitValue(s[0]) by {
      DigitsValueStep(s);
    }
    AtoiDigits(s);
  }

  /** `atoi` of a three-digit argument. */
  lemma AtoiThreeDigits(s: string)
    requires |s| == 3 && IsDigit(s[0]) && IsDigit(s[1]) && IsDigit(s[2])
    ensures Atoi(s) == 100 * DigitValue(s[0]) + 10 * DigitValue(s[1]) + DigitValue(s[2])
  {
    AtoiDigits(s);
    DigitsValueStep(s);
    DigitsValueStep(s[..2]);
    DigitsValueStep(s[..1]);
    var two := s[..2];
    var one := s[..1];
    assert two[..1] == one && two[1] == s[1] && one[..0] == [] && one[0] == s[0];
    assert DigitsValue(one) == DigitValue(s[0]);
    assert DigitsValue(two) == 10 * DigitValue(s[0]) + DigitValue(s[1]);
    assert DigitsValue(s) == 10 * DigitsValue(two) + DigitValue(s[2]);
  }

  /** How three arguments are read, once `atoi` of each is known. */
  lemma ParseThreeArgs(prog: string, bus: string, addr: string, primary: uint8, secondary: uint8, busValue: int, addrValue: int)
    requires Atoi(bus) == busValue && Atoi(addr) == addrValue
    ensures ToUint8(addrValue) != primary && ToUint8(addrValue) != secondary ==>
              ParseArgs([prog, bus, addr], primary, secondary) == Failure(ToUint8(addrValue))
    ensures ToUint8(addrValue) == primary || ToUint8(addrValue) == secondary ==>
              ParseArgs([prog, bus, addr], primary, secondary) == Success(BusSettings(ToUint8(busValue), ToUint8(addrValue)))
  {
    var argv := [prog, bus, addr];
    assert argv[1] == bus && argv[2] == addr;
  }

  /** `atoi` of the example arguments. */
  lemma AtoiOne()
    ensures Atoi("1") == 1
  {
    AtoiOneDigit("1");
  }

  lemma AtoiTwoHundred()
    ensures Atoi("200") == 200
  {
    AtoiThreeDigits("200");
  }

  lemma AtoiThreeSeventyFour()
    ensures Atoi("374") == 374
  {
    AtoiThreeDigits("374");
  }

  /** 374 is 0x176, whose low byte is 0x76; 200 and 1 fit in 8 bits. */
  lemma TruncateExamples()
    ensures ToUint8(374) == 0x76 && ToUint8(200) == 200 && ToUint8(1) == 1
  {
  }

  /** With the sensor addresses 0x76 and 0x77, an address argument that
      `atoi` reads as 200 is refused, whatever the bus argument. */
  lemma RefusedAddressValue(prog: string, bus: string, addr: string)
    requires Atoi(addr) == 200
    ensures ParseArgs([prog, bus, addr], 0x76, 0x77) == Failure(200)
  {
    TruncateExamples();
    ParseThreeArgs(prog, bus, addr, 0x76, 0x77, Atoi(bus), 200);
  }

  /** An address argument that `atoi` reads as 374 is taken as 0x76, since
      the address is compared after truncation to 8 bits. */
  lemma WrappedAddressValue(prog: string, bus: string, addr: string)
    requires Atoi(bus) == 1 && Atoi(addr) == 374
    ensures ParseArgs([prog, bus, addr], 0x76, 0x77) == Success(BusSettings(1, 0x76))
  {
    TruncateExamples();
    ParseThreeArgs(prog, bus, addr, 0x76, 0x77, 1, 374);
  }

  /** "200" is refused as an address... */
  lemma RefusedAddress()
    ensures ParseArgs(["prog", "1", "200"], 0x76, 0x77) == Failure(200)
  {
    AtoiTwoHundred();
    RefusedAddressValue("prog", "1", "200");
  }

  /** ...while "374" is taken as 0x76. */
  lemma WrappedAddress()
    ensures ParseArgs(["prog", "1", "374"], 0x76, 0x77) == Success(BusSettings(1, 0x76))
  {
    AtoiOne();
    AtoiThreeSeventyFour();
    WrappedAddressValue("prog", "1", "374");
  }
}
