/** The `Cat` record of `src/types/index.ts`, shared by the listing pages and
    the card. Optional properties are `Option`s; `featured` absent reads as
    not featured. */
module CatTypes {
  import opened Wrappers

  datatype Gender = Male | Female

  datatype Location = Location(city: string, state: string, neighborhood: string)

  datatype Owner = Owner(name: string, avatar: string, phone: Option<string>, whatsapp: Option<string>)

  datatype GoodWith = GoodWith(kids: bool, dogs: bool, cats: bool)

  datatype Cat = Cat(
    id: string,
    name: string,
    age: string,
    breed: string,
    gender: Gender,
    description: string,
    personality: seq<string>,
    images: seq<string>,
    location: Location,
    owner: Owner,
    vaccinated: bool,
    neutered: bool,
    healthInfo: Option<string>,
    goodWith: GoodWith,
    createdAt: string,
    featured: Option<bool>)
}
