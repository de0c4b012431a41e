/**
 * The stored entities. Ids are strings; a variant, cart line or order line that may be
 * absent holds an `Option`. Addresses are kept in the shape the checkout schema accepts.
 */
module Schema {
  import opened Wrappers
  import opened OrderValidation

  type Id = string

  datatype Role = BUYER | SELLER | ADMIN
  datatype ProductStatus = ACTIVE | DRAFT | ARCHIVED
  datatype OrderStatus = PENDING | CONFIRMED | PROCESSING | SHIPPED | DELIVERED | CANCELLED | REFUNDED
  /** Shares the names `PENDING` and `REFUNDED` with `OrderStatus`; write `PaymentStatus.PENDING`. */
  datatype PaymentStatus = PENDING | PAID | FAILED | REFUNDED | PARTIALLY_REFUNDED

  /** A product image; the list in a product is in ascending `order`. */
  datatype Image = Image(url: string, alt: Option<string>)

  datatype Product = Product(
    name: string, slug: string, description: string, price: real, stock: int,
    status: ProductStatus, sellerId: Id, categoryId: Id, images: seq<Image>)

  /** A variant; a `None` price means the product's price applies. */
  datatype Variant = Variant(productId: Id, name: string, price: Option<real>, stock: int)

  datatype Cart = Cart(id: Id, userId: Id)

  datatype CartItem = CartItem(id: Id, cartId: Id, productId: Id, variantId: Option<Id>, quantity: int)

  /** A frozen copy of a cart line at checkout time. */
  datatype OrderItem = OrderItem(
    productId: Id, variantId: Option<Id>, productName: string, variantName: Option<string>,
    price: real, quantity: int, commissionRate: real, commissionAmount: real, sellerId: Id)

  datatype Order = Order(
    id: Id, userId: Id, status: OrderStatus, paymentStatus: PaymentStatus,
    subtotal: real, shippingCost: real, taxAmount: real, total: real,
    shippingAddress: Address, billingAddress: Option<Address>, notes: Option<string>,
    items: seq<OrderItem>)

  datatype User = User(id: Id, name: Option<string>, email: string, passwordHash: Option<string>, role: Role)

  datatype Seller = Seller(id: Id, userId: Id, storeName: string, slug: string, description: Option<string>)

  datatype VerificationToken = VerificationToken(identifier: string, token: string, expires: int)

  /** The signed-in user as the session reports it. */
  datatype Session = Session(userId: Id, role: Role)
}
