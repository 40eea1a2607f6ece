/**
 * The data snapshot the chart is drawn from: an ordered sequence of named
 * categories, each holding one ordered list of skill labels per tier.
 * A tier list missing from imported data reads as empty; here every
 * category simply carries all four lists.
 */
module Chart {

  /** The four proficiency tiers, innermost to outermost. */
  datatype Tier = Comfortable | Challenging | Near | Far

  /** The fixed order in which tiers are walked and drawn. */
  const Tiers: seq<Tier> := [Comfortable, Challenging, Near, Far]

  datatype Skills = Skills(comfortable: seq<string>, challenging: seq<string>, near: seq<string>, far: seq<string>)
  {
    function Get(t: Tier): seq<string> {
      match t
      case Comfortable => comfortable
      case Challenging => challenging
      case Near => near
      case Far => far
    }

    /** The skills with the list of tier `t` replaced and every other list kept. */
    function With(t: Tier, v: seq<string>): (r: Skills)
      ensures r.Get(t) == v
      ensures forall u :: u != t ==> r.Get(u) == Get(u)
    {
      match t
      case Comfortable => this.(comfortable := v)
      case Challenging => this.(challenging := v)
      case Near => this.(near := v)
      case Far => this.(far := v)
    }
  }

  const NoSkills: Skills := Skills([], [], [], [])

  datatype Category = Category(name: string, skills: Skills)

  datatype Data = Data(categories: seq<Category>)
}
