/** The read-only challenge catalog of Bug Hunter Arena and the scoring rules that read it. */
module Catalog {

  datatype Difficulty = Easy | Medium | Hard

  /** One level of the game: a code snippet with exactly one defective line. */
  datatype Challenge = Challenge(
    level: int,
    title: string,
    language: string,
    code: seq<string>,
    bugLine: int,          // 0-based index into `code`
    difficulty: Difficulty)

  /** The eight bundled challenges, in level order. */
  function Challenges(): (cs: seq<Challenge>)
    ensures |cs| == LevelCount
    ensures forall k :: 0 <= k < |cs| ==> cs[k].level == k + 1
    ensures forall k :: 0 <= k < |cs| ==> 0 <= cs[k].bugLine < |cs[k].code|
    ensures forall k :: 0 <= k < |cs| ==> |cs[k].code| >= 4
  {
    [Level1(), Level2(), Level3(), Level4(), Level5(), Level6(), Level7(), Level8()]
  }

  // The entries one by one; each states its level, its bug line, its number of lines
  // and its difficulty.

  function Level1(): (c: Challenge)
    ensures c.level == 1 && c.bugLine == 1 && |c.code| == 4 && c.difficulty == Easy
  {
    Challenge(1, "Missing Semicolon", "JavaScript",
          [ "function greet(name) {",
            "  console.log('Hello, ' + name)",
            "  return true;",
            "}" ],
          1, Easy)
  }

  function Level2(): (c: Challenge)
    ensures c.level == 2 && c.bugLine == 3 && |c.code| == 5 && c.difficulty == Easy
  {
    Challenge(2, "Undefined Variable", "Python",
          [ "def calculate_total(items):",
            "    total = 0",
            "    for item in items:",
            "        totl += item.price",
            "    return total" ],
          3, Easy)
  }

  function Level3(): (c: Challenge)
    ensures c.level == 3 && c.bugLine == 1 && |c.code| == 5 && c.difficulty == Medium
  {
    Challenge(3, "Off-by-One Error", "JavaScript",
          [ "function getLastElement(arr) {",
            "  return arr[arr.length];",
            "}",
            "",
            "const nums = [1, 2, 3];" ],
          1, Medium)
  }

  function Level4(): (c: Challenge)
    ensures c.level == 4 && c.bugLine == 3 && |c.code| == 5 && c.difficulty == Medium
  {
    Challenge(4, "Infinite Loop", "JavaScript",
          [ "let count = 0;",
            "while (count < 10) {",
            "  console.log(count);",
            "  count--;",
            "}" ],
          3, Medium)
  }

  function Level5(): (c: Challenge)
    ensures c.level == 5 && c.bugLine == 1 && |c.code| == 6 && c.difficulty == Medium
  {
    Challenge(5, "Wrong Comparison Operator", "JavaScript",
          [ "function isEqual(a, b) {",
            "  if (a = b) {",
            "    return true;",
            "  }",
            "  return false;",
            "}" ],
          1, Medium)
  }

  function Level6(): (c: Challenge)
    ensures c.level == 6 && c.bugLine == 0 && |c.code| == 4 && c.difficulty == Hard
  {
    Challenge(6, "Async/Await Missing", "JavaScript",
          [ "function fetchData() {",
            "  const data = await fetch('/api/data');",
            "  return data.json();",
            "}" ],
          0, Hard)
  }

  function Level7(): (c: Challenge)
    ensures c.level == 7 && c.bugLine == 2 && |c.code| == 5 && c.difficulty == Hard
  {
    Challenge(7, "Wrong Array Method", "JavaScript",
          [ "const numbers = [1, 2, 3, 4];",
            "const doubled = numbers.map((n) => {",
            "  n * 2;",
            "});",
            "console.log(doubled);" ],
          2, Hard)
  }

  function Level8(): (c: Challenge)
    ensures c.level == 8 && c.bugLine == 1 && |c.code| == 5 && c.difficulty == Hard
  {
    Challenge(8, "Null Reference", "JavaScript",
          [ "function getUserName(user) {",
            "  return user.profile.name;",
            "}",
            "",
            "const user = { id: 1 };" ],
          1, Hard)
  }

  /** The number of levels; the game ends after the last one. */
  const LevelCount := 8

  /** The challenge shown at the 1-based `level`. */
  function ChallengeAt(level: int): (c: Challenge)
    requires 1 <= level <= LevelCount
    ensures c.level == level
    ensures 0 <= c.bugLine < |c.code|
    ensures |c.code| >= 4
  {
    Challenges()[level - 1]
  }

  /** Points a correct guess earns on a challenge of difficulty `d`. */
  function Points(d: Difficulty): (p: int)
    ensures p == 100 <==> d == Easy
    ensures p == 200 <==> d == Medium
    ensures p == 300 <==> d.Hard?
  {
    if d == Easy then 100 else if d == Medium then 200 else 300
  }

  /** The bonus for finding the bug with no earlier wrong guess on this level. */
  function FirstTryBonus(attempts: int): (b: int)
    ensures b == 50 <==> attempts == 0
    ensures b == 0 <==> attempts != 0
  {
    if attempts == 0 then 50 else 0
  }
}
