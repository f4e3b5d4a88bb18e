/** The 16-bit address register I. */
module AddressRegister {
  import opened Unsigned

  class AddressRegister {
    var address: Short

    constructor (initial: Short)
      ensures address == initial
    {
      address := initial;
    }

    /** The no-argument constructor: the register holds 0. */
    constructor Zero()
      ensures address == 0
    {
      address := 0;
    }

    function GetAddress(): Short
      reads this
    {
      address
    }

    method SetAddress(value: Short)
      modifies this
      ensures address == value
    {
      address := value;
    }
  }
}
