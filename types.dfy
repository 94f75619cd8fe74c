/**
 * The records of `types.ts`. Quantities are integers (fractional kilograms are
 * not modelled); identifiers and timestamps are the strings the caller supplies.
 */
module Types {

  /** Units of measure; the comment on each constructor is its stored tag. */
  datatype UnitType =
    | Dona     // 'dona'
    | Kg       // 'kg'
    | Litr     // 'litr'
    | Metr     // 'metr'
    | Kvadrat  // 'kv.m'

  datatype Product = Product(
    id: string,
    name: string,
    category: string,
    barcode: string,
    quantity: int,
    unit: UnitType,
    lastUpdated: string)

  /** Direction of a stock movement: inbound ('kirim') or outbound ('chiqim'). */
  datatype TxType = Kirim | Chiqim

  datatype Transaction = Transaction(
    id: string,
    productId: string,
    productName: string,
    kind: TxType,
    quantity: int,
    timestamp: string,
    user: string)

  /** The closed permission vocabulary. */
  datatype Permission = Dashboard | Kirim | Chiqim | Inventory | Admin

  /** The string tag a permission is stored and compared as. */
  function Tag(p: Permission): string {
    match p
    case Dashboard => "dashboard"
    case Kirim => "kirim"
    case Chiqim => "chiqim"
    case Inventory => "inventory"
    case Admin => "admin"
  }

  datatype User = User(
    id: string,
    username: string,
    password: string,
    fullName: string,
    permissions: seq<Permission>)

  // Key functions by which the store looks records up.

  function ProductId(p: Product): string { p.id }

  function ProductBarcode(p: Product): string { p.barcode }

  function UserId(u: User): string { u.id }
}
