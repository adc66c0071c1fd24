/**
 * A product record as the catalog API returns it. Every field is optional
 * in the JSON, so each one is a `JsValue` that reads as `Undefined` when
 * the record lacks it.
 */
module Api {
  import opened Js

  datatype Product = Product(
    name: JsValue,
    description: JsValue,
    imageUrl: JsValue,      // image_url
    image: JsValue,         // image (older field name)
    productLink: JsValue,   // product_link
    link: JsValue,          // link (older field name)
    veganStatus: JsValue,   // vegan_status
    vegan: JsValue,         // vegan (older field name)
    category: JsValue,
    price: JsValue,
    vendor: JsValue
  )
}
