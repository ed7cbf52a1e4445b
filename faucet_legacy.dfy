/** The older, top-level faucet (faucet.py): only a name, a host computer, a
    type, a relay index and the open flag. */
module FaucetLegacy {
  import opened Wrappers
  import opened FaucetTypes

  class Faucet {
    const name: string
    const computerName: Option<string>
    const faucetType: string
    const relayIdx: RelayIdx
    var isOpen: bool

    /** A new faucet is closed. */
    constructor (name: string, computerName: Option<string>,
                 faucetType: string := "generic", relay: RelayIdx := RelayName("0"))
      ensures this.name == name && this.computerName == computerName
      ensures this.faucetType == faucetType && this.relayIdx == relay
      ensures !isOpen
    {
      this.name := name;
      this.computerName := computerName;
      this.faucetType := faucetType;
      this.relayIdx := relay;
      isOpen := false;
    }

    method Open()
      modifies this
      ensures isOpen
    {
      isOpen := true;
    }

    method Close()
      modifies this
      ensures !isOpen
    {
      isOpen := false;
    }
  }
}
