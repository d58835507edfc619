/**
 * The records the client receives from the back end, with the fields the
 * modelled code reads. Money is in integer cents.
 */
module Types {

  /** A dish on a restaurant's menu; `price` in cents. */
  datatype MenuItem = MenuItem(id: string, name: string, price: nat)

  /** A restaurant as served by `GET /api/restaurant/{id}`. */
  datatype Restaurant = Restaurant(
    id: string,
    restaurantName: string,
    city: string,
    country: string,
    deliveryPrice: nat,
    estimatedDeliveryTime: int,
    cuisines: seq<string>,
    menuItems: seq<MenuItem>,
    imageUrl: string)

  /** The signed-in user's profile. */
  datatype User = User(
    id: string,
    email: string,
    name: string,
    addressLine1: string,
    city: string,
    country: string)

  /** The paging block of a search response, as reported by the server. */
  datatype Pagination = Pagination(total: int, page: int, pages: int)

  /** `RestaurantSearchResponse`: one page of matching restaurants. */
  datatype SearchResponse = SearchResponse(data: seq<Restaurant>, pagination: Pagination)
}
