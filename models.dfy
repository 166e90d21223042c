/** The persisted entities: users, products, orders and their line items.
    Identifiers are the store's auto-assigned primary keys; money is counted
    in whole cents. */
module Models {
  import opened Outcomes

  /** The two documented roles, with the text the role claim carries. */
  datatype Role = Admin | Customer

  function RoleName(r: Role): (name: string)
    ensures name == "admin" <==> r == Admin
    ensures name == "user" <==> r == Customer
  {
    match r
    case Admin => "admin"
    case Customer => "user"
  }

  /** The documented order statuses. */
  datatype Status = Pending | Completed | Cancelled

  /** The text a status is stored and serialised as. */
  function StatusName(s: Status): (name: string)
    ensures name == "Pending" <==> s == Pending
    ensures name == "Completed" <==> s == Completed
    ensures name == "Cancelled" <==> s == Cancelled
  {
    match s
    case Pending => "Pending"
    case Completed => "Completed"
    case Cancelled => "Cancelled"
  }

  /** The column default applied when an order is inserted without a status. */
  const DefaultStatus: Status := Pending

  lemma StatusNamesDistinct(s: Status, t: Status)
    ensures StatusName(s) == StatusName(t) <==> s == t
  {
  }

  datatype User = User(id: nat, name: string, email: string, hashedPassword: string, role: string)

  datatype Product = Product(id: nat, name: string, description: string, price: int, stock: int)

  /** A line item. `orderId` is zero until the owning order is inserted. */
  datatype OrderProduct = OrderProduct(orderId: nat, productId: nat, quantity: int)

  datatype Order = Order(id: nat, userId: nat, products: seq<OrderProduct>, status: Status, totalAmount: int)

  /** Every line item of `o` refers back to `o` through its order id. */
  predicate LineItemsBelong(o: Order)
  {
    forall k :: 0 <= k < |o.products| ==> o.products[k].orderId == o.id
  }

  /** A JSON scalar as the encoder writes it. */
  datatype JsonValue = JsonNumber(number: int) | JsonText(text: string)

  /** The JSON object a user is serialised as: the untagged `ID` under its
      field name, then name, email and role under their tags. The password
      hash is tagged to be skipped. */
  function UserJson(u: User): (fields: seq<(string, JsonValue)>)
    ensures |fields| == 4
    ensures forall i, j :: 0 <= i < j < |fields| ==> fields[i].0 != fields[j].0
    ensures forall k :: 0 <= k < |fields| ==> fields[k].0 in {"ID", "name", "email", "role"} && fields[k].0 != "HashedPassword"
    ensures ("ID", JsonNumber(u.id)) in fields
    ensures ("email", JsonText(u.email)) in fields && ("role", JsonText(u.role)) in fields && ("name", JsonText(u.name)) in fields
  {
    [("ID", JsonNumber(u.id)), ("name", JsonText(u.name)), ("email", JsonText(u.email)), ("role", JsonText(u.role))]
  }

  /** Changing only the password hash leaves the serialised user unchanged. */
  lemma PasswordNeverSerialized(u: User, hash: string)
    ensures UserJson(u.(hashedPassword := hash)) == UserJson(u)
  {
  }

  /** No two stored users share an email address. */
  predicate EmailsUnique(users: map<nat, User>)
  {
    forall a, b :: a in users && b in users && users[a].email == users[b].email ==> a == b
  }

  /** Inserting a user row under the unique index on the email column: the
      insert is refused when the address is already taken. */
  function InsertUser(users: map<nat, User>, u: User): (r: Option<map<nat, User>>)
    requires u.id !in users
    ensures r.None? <==> exists id :: id in users && users[id].email == u.email
    ensures r.Some? ==> r.value.Keys == users.Keys + {u.id} && r.value[u.id] == u
    ensures r.Some? ==> forall id :: id in users ==> r.value[id] == users[id]
    ensures r.Some? && EmailsUnique(users) ==> EmailsUnique(r.value)
  {
    if exists id :: id in users && users[id].email == u.email then None
    else Some(users[u.id := u])
  }
}
