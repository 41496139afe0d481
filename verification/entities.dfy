/**
 * The documents of the content store that the modelled code reads and
 * writes, and the optional-value wrapper used for absent fields.
 */
module Entities {

  datatype Option<+T> = None | Some(value: T)

  /** JavaScript `s || fallback` on a possibly absent string: absent and empty both fall back. */
  function StringOr(s: Option<string>, fallback: string): (r: string)
    ensures r == fallback || (s.Some? && r == s.value && |r| > 0)
    ensures s.Some? && |s.value| > 0 ==> r == s.value
  {
    if s.Some? && |s.value| > 0 then s.value else fallback
  }

  /** A catalog product (`products/{id}`). `category` is a copy of a category name. */
  datatype Product = Product(
    id: string,
    name: string,
    slug: string,
    category: string,
    description: string,
    specifications: string,
    applications: string,
    imageUrl: string,
    imageEffect: Option<string>)

  /** A product category (`productCategories/{id}`). */
  datatype Category = Category(id: string, name: string)

  /** A blog post (`blogs/{id}`). `date` is an ISO-8601 string. */
  datatype BlogPost = BlogPost(
    id: string,
    slug: string,
    title: string,
    date: string,
    author: string,
    category: string,
    summary: string,
    content: string,
    imageUrl: string)
}
