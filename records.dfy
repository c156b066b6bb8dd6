/**
 * The rows of the storefront's tables, as values.  Identifiers are the
 * database's auto-assigned integer keys; money is an exact integer count of
 * hundredths of the currency unit.
 */
module Records {

  type UserId = nat
  type ProductId = nat
  type CategoryId = nat
  type CartId = nat
  type AddressId = nat

  /** Prices are held in hundredths of the currency unit. */
  const Scale: nat := 100

  /** Quantity of a freshly created cart line (the model field's default). */
  const DefaultQuantity: int := 1

  /** The fixed shipping charge shown on the cart page: 10 currency units. */
  const ShippingAmount: int := 10 * Scale

  /** Products shown per page of a category listing. */
  const PageSize: nat := 12

  datatype Product = Product(
    price: int,
    popularity: int,
    active: bool,
    category: CategoryId,
    sku: string)

  datatype CartLine = CartLine(id: CartId, user: UserId, product: ProductId, quantity: int)

  datatype Order = Order(user: UserId, address: AddressId, product: ProductId, quantity: int)

  /**
   * NotFound: the HTTP 404 raised by a failed get_object_or_404.
   * DoesNotExist: the uncaught exception raised by a failed objects.get.
   * Conflict: the IntegrityError of a unique column.
   * ValueError: int() applied to a string that is not a decimal integer.
   */
  datatype Error = NotFound | DoesNotExist | Conflict | ValueError

  datatype Option<T> = None | Some(value: T)

  datatype Result<T> = Ok(value: T) | Err(error: Error)

  datatype Outcome = Done | Failed(error: Error)
}
