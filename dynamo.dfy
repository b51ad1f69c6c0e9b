/** The DynamoDB values the handlers read and write in table `user_films`. */
module Dynamo {
  import opened Wrappers

  /** One element of a stored film list: an `AttributeValue` whose string member `S` may be nil. */
  datatype AttributeValue = AttributeValue(s: Option<string>)

  /** The stored item of one user: its `likedFilms` and `unlikedFilms` list attributes. */
  datatype UserFilms = UserFilms(likedFilms: seq<AttributeValue>, unlikedFilms: seq<AttributeValue>)

  /** `&dynamodb.AttributeValue{S: aws.String(film)}`. */
  function StringValue(film: string): AttributeValue
  {
    AttributeValue(Some(film))
  }
}
