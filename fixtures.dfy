/**
 * The release tags of the changelog test fixture, newest first.
 */
module ChangelogFixtures {
  import opened Git

  function FixtureTags(): (r: seq<Tag>)
    ensures |r| == 17
  {
    [ Tag00(),
      Tag01(),
      Tag02(),
      Tag03(),
      Tag04(),
      Tag05(),
      Tag06(),
      Tag07(),
      Tag08(),
      Tag09(),
      Tag10(),
      Tag11(),
      Tag12(),
      Tag13(),
      Tag14(),
      Tag15(),
      Tag16() ]
  }

  function Tag00(): Tag { Tag("v1.2.0", "141ee44", "2019-04-19") }
  function Tag01(): Tag { Tag("v1.1.1", "56c8a8d", "2019-04-18") }
  function Tag02(): Tag { Tag("v1.1.0", "17efb44", "2019-04-14") }
  function Tag03(): Tag { Tag("v1.0.0", "aa44a92", "2019-03-01") }
  function Tag04(): Tag { Tag("1.0.0b2", "aab33d1", "2019-01-18") }
  function Tag05(): Tag { Tag("v1.0.0b1", "7c7e96b", "2019-01-17") }
  function Tag06(): Tag { Tag("v0.9.11", "c52eca6f74f844ab3ffbde61d98e", "2018-12-17") }
  function Tag07(): Tag { Tag("v0.9.10", "b3f8989", "2018-09-22") }
  function Tag08(): Tag { Tag("v0.9.9", "684e025", "2018-09-22") }
  function Tag09(): Tag { Tag("v0.9.8", "64168f1", "2018-09-22") }
  function Tag10(): Tag { Tag("v0.9.7", "33b0bf1", "2018-09-22") }
  function Tag11(): Tag { Tag("v0.9.6", "bef4a86", "2018-09-19") }
  function Tag12(): Tag { Tag("v0.9.5", "3e31714", "2018-08-24") }
  function Tag13(): Tag { Tag("v0.9.4", "0cf6ada", "2018-08-02") }
  function Tag14(): Tag { Tag("v0.9.3", "dacc861", "2018-07-28") }
  function Tag15(): Tag { Tag("v0.9.2", "1541f54", "2017-11-11") }
  function Tag16(): Tag { Tag("v0.9.1", "46e9032", "2017-11-11") }
}
