/**
 * The account documents of the accounts collection and of the accounts cache.
 * An account is identified by its DID; the `_type` tag is one of root, admin
 * or organization. Dates are instants given as integers.
 */
module AccountTypes {

  /** A decentralised identifier, `did:nil:...`; its syntax is not checked here. */
  type Did = string

  datatype Network = Testnet | Mainnet
  {
    function Name(): string
    {
      match this
      case Testnet => "testnet"
      case Mainnet => "mainnet"
    }
  }

  datatype Subscription = Subscription(active: bool)

  datatype AccountDocument =
    | RootAccount(id: Did, publicKey: string)
    | AdminAccount(id: Did, publicKey: string)
    | OrganizationAccount(
        id: Did,
        created: int,
        updated: int,
        publicKey: string,
        name: string,
        subscription: Subscription,
        schemas: seq<string>,
        queries: seq<string>)
  {
    /** The `_type` tag of the stored document. */
    function TypeTag(): string
    {
      match this
      case RootAccount(_, _) => "root"
      case AdminAccount(_, _) => "admin"
      case OrganizationAccount(_, _, _, _, _, _, _, _) => "organization"
    }
  }

  /** The body of an organization registration. */
  datatype RegisterAccountRequest = RegisterAccountRequest(did: Did, publicKey: string, name: string)
}
